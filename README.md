# Cryptocurrency price ticker: response unwrapping

This project models the one piece of logic in the ticker microservice: the
service layer's unwrapping of the upstream exchange API's response envelopes
into tickers (`QuidaxService`). It covers two operations.

- **Bulk unwrap** (`getStringTickerMap`). It takes the bulk body `{status, data}`, possibly null. `data` is an ordered map from market symbol to an envelope holding a ticker.
  - On a body whose status is exactly `"success"`, it returns an insertion-ordered map from symbol to `Ticker`. Only the entries whose ticker is non-null are kept.
  - On any other body, and on a null body, it returns the empty map.
- **Single unwrap** (the tail of `getTicker`). It takes `{status, message, data}`, possibly null.
  - When the status is `"success"` and `data` is non-null, it returns `data.ticker`, which may itself be null.
  - Otherwise it returns null.

Modules:

- `Wrappers`: `Option`, standing for Java's nullable references.
- `LinkedMap`: a `LinkedHashMap` as an association list `seq<(K, V)>` with distinct keys. It provides `Get` (`Map.get`) and `Put`. `Put` follows `LinkedHashMap.put`: an existing key keeps its position and takes the new value, and a new key is appended.
- `Dto`: `Ticker` (six strings), `MarketData` (the envelope's `ticker`), `QuidaxResponse` and `SingleTickerResponse`. Every nullable field is an `Option`. The bulk body's map is `MarketMap`, a subset type requiring distinct keys, with nullable values.
- `QuidaxService`: the two unwraps and their properties.
  - `GetStringTickerMap` is a method with the source's loop over the map's entries. Each iteration whose envelope holds a non-null ticker calls `Put`. The method is proved equal to the pure specification `BulkUnwrap`, which is built on `KeptEntries`.
  - `UnwrapSingle` is a function.

The source dereferences the bulk body's map without a null check, and it dereferences each envelope without one. On a success body, a null map or a null envelope therefore throws. The model states this as the precondition `BulkDefined` of the bulk unwrap. `NullDereferencesOutsideDomain` exhibits both inputs. `NonSuccessNeverThrows` shows that a non-success or null body is always inside the domain. The single unwrap is total.

## Model

| member | source | states |
|---|---|---|
| `LinkedMap.Put` | src/main/java/com/codewithudo/cryptocurrencypriceticker/service/QuidaxService.java:54 | put keeps keys distinct, binds the key to the new value, leaves every other key's lookup unchanged, and appends only a key that was absent |
| `QuidaxService.KeptEntries` | src/main/java/com/codewithudo/cryptocurrencypriceticker/service/QuidaxService.java:50-55 | the filtered entries are no more than the input and carry only input market names |
| `QuidaxService.GetStringTickerMap` | src/main/java/com/codewithudo/cryptocurrencypriceticker/service/QuidaxService.java:45-59 | the LinkedHashMap filled by the loop equals the bulk specification, has distinct keys, and is empty for a null or non-success body |
| `QuidaxService.UnwrapSingle` | src/main/java/com/codewithudo/cryptocurrencypriceticker/service/QuidaxService.java:88-95 | null for a null or non-success response or a null envelope; otherwise the envelope's ticker unchanged, even when it is null |
| `QuidaxService.KeptLookup` | src/main/java/com/codewithudo/cryptocurrencypriceticker/service/QuidaxService.java:50-55 | every input market name looks up exactly its own envelope's ticker (nothing when that is null); a name not in the input looks up nothing |
| `QuidaxService.KeptKeys` | src/main/java/com/codewithudo/cryptocurrencypriceticker/service/QuidaxService.java:50-55 | the result's key set is exactly the input names whose ticker is non-null |
| `QuidaxService.KeptDistinct` | src/main/java/com/codewithudo/cryptocurrencypriceticker/service/QuidaxService.java:50-55 | no market name appears twice in the result, so no put overwrites an entry |
| `QuidaxService.KeptIsSubsequence` | src/main/java/com/codewithudo/cryptocurrencypriceticker/service/QuidaxService.java:46-56 | the result is a subsequence of the input in iteration order: strictly increasing source positions, same names, tickers unchanged |
| `QuidaxService.BulkUnwrapSpec` | src/main/java/com/codewithudo/cryptocurrencypriceticker/service/QuidaxService.java:45-59 | empty for a null or non-success body; otherwise distinct keys, at most as long as the input, and each name bound to exactly its own ticker |
| `QuidaxService.NonSuccessNeverThrows` | src/main/java/com/codewithudo/cryptocurrencypriceticker/service/QuidaxService.java:46-58 | a null or non-success body never reaches a dereference and yields the empty map |
| `QuidaxService.NullDereferencesOutsideDomain` | src/main/java/com/codewithudo/cryptocurrencypriceticker/service/QuidaxService.java:50-52 | a success body with a null map, or whose map holds a null envelope at any position, is outside the bulk unwrap's domain |
| `QuidaxService.StatusMatchIsExact` | src/main/java/com/codewithudo/cryptocurrencypriceticker/service/QuidaxService.java:48 | worked cases: "success" is a success; "Success", "success " and a null status are not |
| `QuidaxService.BulkAgreesWithSingle` | src/main/java/com/codewithudo/cryptocurrencypriceticker/service/QuidaxService.java:88-95 | for one status, the bulk lookup of a market equals the single unwrap of that market's envelope |
| `QuidaxService.BulkScenario` | src/main/java/com/codewithudo/cryptocurrencypriceticker/service/QuidaxService.java:45-59 | a success body with one full "btcusd" entry unwraps to exactly that binding |
| `QuidaxService.SingleErrorScenario` | src/main/java/com/codewithudo/cryptocurrencypriceticker/service/QuidaxService.java:88-95 | an "error" response with a null envelope unwraps to null |

## Left out

- The HTTP exchanges and the `RestTemplate` construction (QuidaxService.java:23-25, 31-38, 85). They are network I/O through a library. The deserialized body becomes the operations' parameter, so `getTickers` reduces to `GetStringTickerMap`. Exceptions from the exchange itself are not modelled.
- URL building by concatenation (QuidaxService.java:28, 62). It is string glue, and the market symbol is forwarded unvalidated.
- The commented-out earlier version of `getTicker` (QuidaxService.java:63-80). It is dead code.
- TickerController.java. It holds only routing annotations and one-line delegation to the service.
- JSON field-name mapping in Ticker.java (`vol`, `last`, `sell`, `buy`). It is serializer behaviour. `Ticker` is a plain record with no encoding or decoding.
- Ticket.java. It is an unused duplicate of `Ticker`.
- MarketData.java is not part of this model. Only its `ticker` field, the one the service reads, is modelled. Its timestamp and market name are left out.
- Ticker's six fields are modelled as non-null strings. The service passes a ticker through without reading them, so their nullability changes nothing here.
- Lombok-generated accessors and constructors. Fields are read directly.
- The bulk unwrap's two null dereferences are modelled as a precondition rather than as a thrown exception.
