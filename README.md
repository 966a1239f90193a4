# Short-link store of a Go URL shortener

This project models the core of a small URL-shortening service written in Go.
The service has one process-wide table that maps short codes to long URLs.
It has three operations:

- **Generator** (`generator.dfy`, module `Generator`). `generateShortURL` builds a code of `urlLength` (6) characters. It fills a byte buffer one position at a time, each with a symbol drawn at random from the 62-symbol alphanumeric `charset`. The random source is replaced by its draws: the caller passes one index into the alphabet per position (`IsDraw`). The method `GenerateCode` keeps the buffer-filling loop over an `array<char>`. It is proved equal to the function `CodeFrom`. The lemmas prove three things: the alphabet is exactly the ASCII letters and digits, no symbol repeats in it, and draws and codes are in one-to-one correspondence (`ChoicesOf` reads the draws back from a code).
- **Create** (`store.dfy`, `LinkStore.Store.Create`). This is the core of `createShortURL`. An empty long URL is rejected (`EmptyLongUrl`) and the map is left unchanged. Otherwise a code is generated and `code -> longURL` is written into the map. There is no collision check, so an existing entry with the same code is overwritten silently. The result holds the code and the short link `baseURL + "/" + code`.
- **Resolve** (`LinkStore.Store.Resolve`). This is the lookup in `redirectToLongURL`. It reports found or not found, and a missing key yields `""`, like a Go map read. It never changes the map.

The `urls` map is the `urls` field of the class `LinkStore.Store`. A ghost field `log` records every successful create. The object invariant `Valid()` says two things. First, the map is what replaying that log builds (`Replay`). Second, every logged code is well formed and every logged URL is non-empty. `ReplayIsLastWriter` proves that a code is present exactly when some create wrote it. It also proves that the code then maps to the URL of the latest such create (last writer wins).

The mutex around the map only makes each operation atomic. So each Create and each Resolve is one sequential step on a `Store`.

## Model

| member | source | states |
|---|---|---|
| `Generator.GenerateCode` | main.go:22-29 | given one valid draw per position, the code the buffer loop builds is exactly `CodeFrom(choices)` and has `urlLength` (6) alphanumeric characters |
| `Generator.CodeFrom` | main.go:24-27 | a code built from draws has one character per draw, and each one is an ASCII letter or digit |
| `Generator.CharsetIsAlphanumeric` | main.go:19 | the alphabet has 62 symbols; a character is in it if and only if it is a–z, A–Z or 0–9; no symbol occurs twice |
| `Generator.CharsetIsSourceLiteral` | main.go:19 | the alphabet built from its three runs equals the source's literal string |
| `Generator.CharsetAt` | main.go:19 | position k of the alphabet holds the k-th lower-case letter, upper-case letter or digit, in that order |
| `Generator.IndexOf` | main.go:26 | every alphanumeric character sits at some index of the alphabet that a draw can select |
| `Generator.CodeFromChoicesOf` | main.go:24-27 | every alphanumeric string is produced by some draws (no code is out of reach) |
| `Generator.ChoicesOfCodeFrom` | main.go:24-27 | the draws can be recovered from the code they produce |
| `Generator.DistinctDrawsDistinctCodes` | main.go:24-27 | different draws never produce the same code |
| `LinkStore.ShortLink` | main.go:59 | the short link is `baseURL`, then `/`, then exactly the code, and nothing else |
| `LinkStore.RouteParam` | main.go:100 | the `:shortURL` segment read from a link by the `/:shortURL` route is non-empty, has no `/` and is the tail of the link; simplified model of gin's route matching |
| `LinkStore.Replay` | main.go:54 | the map that successive writes `urls[code] = longURL` build, starting from the empty map of main.go:13; it never has more keys than there were writes |
| `LinkStore.ShortLinkRoutesToCode` | main.go:59 | following the link `baseURL + "/" + code` of a generated code gives the `:shortURL` route exactly that code |
| `LinkStore.RouteParamIsShortLink` | main.go:100 | any link that the `/:shortURL` route maps to a code is that code's short link; the code is non-empty and has no `/` |
| `LinkStore.LastIndex` | main.go:54 | gives the position of the latest write of a code, or -1; no later write has that code |
| `LinkStore.ReplayIsLastWriter` | main.go:54 | after any sequence of writes, a code is a key if and only if it was written, and it maps to the latest write's URL |
| `LinkStore.ReplayWellFormed` | main.go:44-54 | a map built only by successful creates holds only 6-character alphanumeric codes and non-empty URLs |
| `LinkStore.Store.constructor` | main.go:13 | the map starts empty |
| `LinkStore.Store.Create` | main.go:43-59 | empty URL: rejected, map and log unchanged. Otherwise: returns the generated code and `baseURL + "/" + code`; the map is the old map with that one key set to the URL; the key count grows by one, or stays the same when the code was already a key; every other entry is unchanged |
| `LinkStore.Store.Resolve` | main.go:68-72 | found if and only if the code is a key, which is exactly when some create wrote it; if found, gives the latest writer's non-empty URL, otherwise `""`; the code then is well formed; the map is not modified |
| `LinkStore.CreateThenResolve` | main.go:50-72 | read after write: resolving the code that a non-empty create returned gives back the submitted URL; an empty URL is rejected and the map is unchanged |
| `LinkStore.CollidingCreates` | main.go:54 | two creates that draw the same code: the second URL replaces the first, the map grows by at most one key, and the first URL is lost |
| `LinkStore.ResolveTwice` | main.go:68-70 | resolve reads only, so asking twice gives identical answers |
| `LinkStore.ResolveOnNewStore` | main.go:13 | a new, empty store resolves no code |

## Left out

- The gin router is left out, apart from the `/:shortURL` route pattern (main.go:100), which `RouteParam` models in simplified form. Also left out, as framework I/O: JSON binding of the request body and its "Invalid request" error, and the HTTP status, JSON and redirect responses (main.go:32-41, 58-60, 73, 78). Create returns the code and link, and Resolve returns the URL and a found flag, instead.
- `RouteParam` is a simplified model of gin's `/:shortURL` parameter. It covers one non-empty path segment after `baseURL + "/"`. It ignores query strings, percent-decoding and the router's other routes.
- `ShortLinkRoutesToCode` says nothing about gin choosing between routes. For example, the draws 18, 19, 0, 19, 8, 2 produce the code `static`. Its link `http://localhost:8080/static` is the path of the `/static` file group (main.go:86), so gin may never hand that code to the redirect handler.
- The static-file serving and server start-up (`serveFrontend` and `main`, main.go:82-107) are I/O plumbing. The one exception is the `/:shortURL` route pattern at main.go:100, which is modelled in simplified form.
- `sync.Mutex` locking (main.go:53-55, 68-70) is left out. Each operation is one atomic sequential step. Interleavings of concurrent requests are not modelled beyond that.
- `rand.Seed(time.Now().UnixNano())` and `rand.Intn` (main.go:23, 26) are a clock and a pseudo-random generator. They become the caller-supplied draws `choices`. The model therefore says nothing about probabilities or about reseeding within one clock tick. `DistinctDrawsDistinctCodes` and `CodeFromChoicesOf` show only that draws and codes correspond one to one.
- Collision detection and retry are absent from the source and are not added. The model keeps the silent overwrite.
- `urlLength` and `baseURL` are package variables that nothing reassigns. They are modelled as constants (6 and `http://localhost:8080`).
- Go strings are byte strings. Here they are `seq<char>`. The codes are ASCII, so the byte and character views agree for them. Long URLs are stored as given.
- Empty long URLs are rejected inside `createShortURL` itself (main.go:44-47), not by a separate caller. The model follows the code and gives Create an explicit `EmptyLongUrl` result rather than a precondition.
