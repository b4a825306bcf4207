# bee-dog-app core, modelled in Dafny

This project models the logic of the bee-dog-app marketing site: a Next.js front end for a token, with a live price chart, an AI image-transformation page and its locales: four offered in the language switcher and the middleware, five accepted by the request configuration. Its modules are:

- **PriceHistory and PriceFeed** (`lib/priceFeed.ts`). The price-feed service is the `PriceFeedService` class. It models:
  - the WebSocket lifecycle: connect, open, message, close and disconnect;
  - the reconnect counter, capped at 5, with delays of 1000·2^(n-1) ms;
  - the ordered listener list, with append, remove-by-identity and fan-out;
  - the classification of inbound ticker frames, and the flat candle built from a tick;
  - the historical pipeline: ms→s, `o || value`, a stable sort by time, `slice(-limit)`;
  - the synthetic fallback series of 100 one-minute candles.
- **TransformImageRoute** (`app/api/transform-image/route.ts`). It models:
  - the per-IP sliding-window rate limiter, as the `RateLimiter` class over a map from IP to timestamps;
  - the upload validator: MIME allow-list, then size ≤ 10 MiB, then magic bytes. The bytes are the JPEG SOI marker FF D8 (ITU-T T.81, Table B.1), the first four bytes of the PNG signature (section 5.2 of the PNG specification) and the `WEBP` FourCC at offset 8 of a RIFF header (section 2.4 of RFC 9649);
  - the clamping of the generation parameters;
  - the order in which `POST` rejects a request.
- **ImageUpload** (`components/ImageUpload.tsx`): the client-side type/size check, and the widget's selection, removal and drag state.
- **ImageSlider** (`components/ImageSlider.tsx`): the carousel index with wrap-around in both directions, the auto-play tick, the loading/error flags, and the controls shown for 0, 1 or more images.
- **HowToBuyDialog** (`components/HowToBuyDialog.tsx`): the step counter clamped to 1..3, reset on close, and the step and footer shown for each step.
- **PathSegments, LanguageSwitcher, Navigation** (`components/LanguageSwitcher.tsx`, `components/Navigation.tsx`):
  - JavaScript's `split('/')`/`join('/')` and the locale at segment 1;
  - the language lookup and the locale rewrite;
  - the three nav links and which of them is active;
  - the dropdown and menu toggles.
- **I18nRequest** (`i18n/request.ts`): locale validation with the English fallback, and the time-zone table.

## How the environment is modelled

- **Time.** `Date.now()` is a parameter (`nowMs`). `Math.floor(ms / 1000)` is `SecondsOf`. Dafny's `/` agrees with it because the divisor is positive.
- **Randomness.** `Math.random()` results are a parameter (`draws`), each value in [0, 1).
- **Transport.**
  - The WebSocket is the fields `connected`, `socketAddress` and `sockets`.
  - Sent messages are the `sent` log; listener calls are the `delivered` log.
  - A socket constructor that throws is the flag `constructorThrows`.
  - An armed `setTimeout` is a `Timer(delay, captured address)` in `timers`, and `FireTimer` is its firing.
  - An HTTP reply to the historical request is a `Response`.
  - `JSON.parse` of a frame is a `Frame`, with `Unparseable` for a parse error.
- **Callbacks.** Listener callbacks are natural-number identities, so JavaScript reference equality is value equality.
- **Parent callbacks.** The parent components' callbacks (`onFileSelect`, `onFileRemove`, `onClose`) and `router.push` are recorded as logs or call counts.
- **Upload payload.** A multipart upload is an `UploadFile`. Its declared type and size are given. Its content is `None` when reading it fails.
- **Prices.** Prices are reals. `parseFloat` of the frame's `p` is either a number or `NotANumber`.

Some behaviours of the code are modelled as written:

- **Reconnect after a drop never reconnects.** The close handler calls `scheduleReconnect()` without an address (`lib/priceFeed.ts:197`). The timer it arms therefore reconnects nothing (`lib/priceFeed.ts:211`). Only a socket constructor that throws arms a timer that reconnects. `FireTimer` and `CloseRunShape` state this: after a drop, the timers carry no address.
- **`disconnect` leaves pending reconnect timers armed.** It does not cancel them.
- **`slice(-limit)` with a limit of 0 keeps every candle** (`TakeLastZero`).
- **The route does not compare the declared MIME type with the detected signature** (`DeclaredTypeNotMatched`).
- **Replacing a file in the upload widget does not revoke the previous preview URL.** Only removal revokes it.

## Model

| member | source | states |
|---|---|---|
| PathSegments.Split | components/LanguageSwitcher.tsx:19 | `split('/')` always yields at least one piece, and no piece contains the separator |
| PathSegments.Join | components/LanguageSwitcher.tsx:26 | `join('/')` starts with the first segment, puts a separator right after it when more segments follow, and is that segment alone when there is one; JoinSplit and SplitJoin make it the inverse of Split |
| PathSegments.JoinSplit | components/LanguageSwitcher.tsx:24-26 | joining the pieces of a split with '/' gives back the original path |
| PathSegments.SplitJoin | components/LanguageSwitcher.tsx:24-26 | splitting a join of separator-free segments gives back the same segments |
| PathSegments.SplitAtSeparator | components/LanguageSwitcher.tsx:19 | a separator-free prefix followed by '/' becomes its own first segment |
| PathSegments.LocaleOf | components/Navigation.tsx:15 | segment 1 of `split('/')`, or "en" when it is missing or empty: never empty and never holding '/'; anything other than "en" is segment 1 of the path, and a non-empty segment 1 is always the result |
| PathSegments.LocaleOfPath | components/Navigation.tsx:15 | on `s0/l…` the locale is `l`, or "en" when `l` is empty; it is never empty and never holds '/' |
| PathSegments.LocaleOfFlatPath | components/LanguageSwitcher.tsx:19 | a path without '/' has no segment 1 and falls back to "en" |
| LanguageSwitcher.FindLanguage | components/LanguageSwitcher.tsx:20 | the result is an entry with the requested code; none is returned exactly when no entry has that code; it is the first such entry, as `find` returns |
| LanguageSwitcher.CurrentLanguage | components/LanguageSwitcher.tsx:6-20 | the shown language is one of the four offered; it has the path's locale when that is offered, and is English otherwise |
| LanguageSwitcher.WithLocaleSegment | components/LanguageSwitcher.tsx:25 | `segments[1] = newLocale`: segment 1 becomes the new locale (appended when the array had one element), every other segment keeps its place, and separator-free segments stay separator-free |
| LanguageSwitcher.ReplaceLocale | components/LanguageSwitcher.tsx:23-26 | for a locale without '/', splitting the new path gives back the old segments with segment 1 replaced; ReplaceLocaleSegments, ReplaceLocaleThenRead, ReplaceLocaleIdempotent and ReplaceWithCurrentLocale state what that means for the path |
| LanguageSwitcher.ReplaceLocaleSegments | components/LanguageSwitcher.tsx:23-26 | after the rewrite, segment 1 is the new locale, every other segment is unchanged and in place, and a path without segment 1 gains one |
| LanguageSwitcher.ReplaceLocaleThenRead | components/LanguageSwitcher.tsx:19-26 | reading the locale of a rewritten path gives the locale it was rewritten to |
| LanguageSwitcher.ReplaceLocaleIdempotent | components/LanguageSwitcher.tsx:23-26 | rewriting twice to the same locale equals rewriting once |
| LanguageSwitcher.ReplaceWithCurrentLocale | components/LanguageSwitcher.tsx:19-26 | rewriting a path to its own non-empty locale leaves it unchanged |
| LanguageSwitcher.Switcher.constructor | components/LanguageSwitcher.tsx:14-16 | the dropdown starts closed with no navigation pushed |
| LanguageSwitcher.Switcher.Toggle | components/LanguageSwitcher.tsx:35 | the button flips the dropdown and navigates nowhere |
| LanguageSwitcher.Switcher.ClickOverlay | components/LanguageSwitcher.tsx:98 | clicking the overlay closes the dropdown |
| LanguageSwitcher.Switcher.HandleLanguageChange | components/LanguageSwitcher.tsx:22-30 | exactly one navigation, to the path rewritten to the new locale, is pushed, and the dropdown is closed |
| Navigation.NavLinks | components/Navigation.tsx:17-21 | there are three links and every href begins with "/" + locale |
| Navigation.LinksFor | components/Navigation.tsx:15-21 | the bar shows three links for the path's locale, home first at `/` + locale, and every href under it |
| Navigation.IsActive | components/Navigation.tsx:23-28 | `isActive`: exact match (or the site root) for the home link, `startsWith` for the others; its meaning is stated by AtMostOneActive, RootHighlightsHome, HomeActiveOnLocale, GameActiveOnGamePaths and ImageAiActiveOnImageAiPaths |
| Navigation.AtMostOneActive | components/Navigation.tsx:17-28 | for any path, no two of the three links are active together |
| Navigation.RootHighlightsHome | components/Navigation.tsx:15-27 | on "/" the home link is "/en" and is the only active link |
| Navigation.HomeActiveOnLocale | components/Navigation.tsx:24-26 | on `/l` the home link is active |
| Navigation.GameActiveOnGamePaths | components/Navigation.tsx:27 | on `/l/game…` the game link is active |
| Navigation.ImageAiActiveOnImageAiPaths | components/Navigation.tsx:27 | on `/l/image-ai…` the image-AI link is active |
| Navigation.Menu.constructor | components/Navigation.tsx:10 | the mobile menu starts closed |
| Navigation.Menu.ToggleMenu | components/Navigation.tsx:68 | the menu button flips the menu |
| Navigation.Menu.ChooseMobileLink | components/Navigation.tsx:108 | choosing a mobile link closes the menu |
| I18nRequest.ResolveLocale | i18n/request.ts:5-14 | the resolved locale is always one of the five; a supported locale is kept; a missing or unsupported one becomes "en" |
| I18nRequest.ResolveIdempotent | i18n/request.ts:12-14 | resolving twice equals resolving once |
| I18nRequest.TimeZone | i18n/request.ts:19-23 | zh-CN, zh-HK, ko-KR and ru map to Shanghai, Hong Kong, Seoul and Moscow; everything else maps to New York |
| I18nRequest.TimeZonesDistinct | i18n/request.ts:19-23 | distinct non-English locales get distinct time zones |
| PriceHistory.OrValue | lib/priceFeed.ts:91-94 | a present, non-zero OHLC field is used as is; a missing or zero one falls back to `value` |
| PriceHistory.SecondsOf | lib/priceFeed.ts:90 | the result is the whole second containing the millisecond instant |
| PriceHistory.ToCandle | lib/priceFeed.ts:89-95 | the candle's time is the item's second, and each OHLC field is the item's field or `value` |
| PriceHistory.ToCandles | lib/priceFeed.ts:88-95 | the map keeps length and order: entry k is the candle of item k |
| PriceHistory.InsertByTime | lib/priceFeed.ts:96 | inserting into a time-sorted series keeps it sorted and adds exactly the new candle |
| PriceHistory.InsertByTimeStable | lib/priceFeed.ts:96 | insertion puts the new candle before the equal-time candles already present |
| PriceHistory.SortByTime | lib/priceFeed.ts:96 | the sort yields a permutation of its input that is non-decreasing in time |
| PriceHistory.SortByTimeStable | lib/priceFeed.ts:96 | candles with equal times keep their input order (the sort is stable) |
| PriceHistory.SliceFrom | lib/priceFeed.ts:97 | JavaScript's `slice(start)`: always a suffix of the array; a negative start keeps the last min(-start, n) entries, a non-negative one drops the first min(start, n) |
| PriceHistory.TakeLast | lib/priceFeed.ts:97 | `slice(-limit)` is a suffix of the array; a negative limit drops the first -limit entries; TakeLastPositive and TakeLastZero cover the other limits |
| PriceHistory.TakeLastPositive | lib/priceFeed.ts:97 | for limit ≥ 1, `slice(-limit)` is the suffix of length min(n, limit) |
| PriceHistory.TakeLastZero | lib/priceFeed.ts:97 | `slice(-0)` keeps the whole series |
| PriceHistory.FormatHistory | lib/priceFeed.ts:88-97 | the map, sort and `slice(-limit)` pipeline; its meaning is stated by FormatHistoryShape |
| PriceHistory.SortedCandleFromItem | lib/priceFeed.ts:88-96 | every entry of the sorted candles is the candle of some item of the response |
| PriceHistory.SortedSuffix | lib/priceFeed.ts:96-97 | the last entries of a time-sorted series are still sorted by time |
| PriceHistory.FormatHistoryShape | lib/priceFeed.ts:87-97 | the pipeline's result is time-sorted, of length min(n, limit), a suffix of the sorted series, and each entry is the candle of some item |
| PriceHistory.UsableItems | lib/priceFeed.ts:83-87 | items are used exactly when the reply is OK, parses, has `success` and has at least one item |
| PriceHistory.MinutesBefore | lib/priceFeed.ts:245-253 | `floor((now - i·60000)/1000)` is i minutes before now's second |
| PriceHistory.MockCandle | lib/priceFeed.ts:245-258 | a synthetic candle is stamped i minutes before now; every field is ≥ 0, and low ≤ open, close ≤ high |
| PriceHistory.GenerateMockData | lib/priceFeed.ts:238-262 | exactly 100 candles, 60 s apart, the last at now's second, each a clamped non-negative candle built from its own draw |
| PriceHistory.GetHistoricalData | lib/priceFeed.ts:64-111 | a usable reply gives the formatted series (limit defaults to 100); any other outcome gives the synthetic series |
| PriceFeed.BackoffDelay | lib/priceFeed.ts:208 | every armed delay is at least the 1000 ms base |
| PriceFeed.BackoffSchedule | lib/priceFeed.ts:201-215 | the delays are 1000, 2000, 4000, 8000 and 16000 ms, each twice the one before |
| PriceFeed.ScheduleStep | lib/priceFeed.ts:201-215 | a reconnect request never takes the counter past 5 and arms at most one timer |
| PriceFeed.CloseStep | lib/priceFeed.ts:192-199 | the close handler's own guard adds nothing: a close is exactly a reconnect request without an address |
| PriceFeed.CloseRun | lib/priceFeed.ts:192-215 | k close events in a row arm at most k timers and never more than the attempts left below 5; CloseRunShape gives the timers themselves |
| PriceFeed.ReconnectRun | lib/priceFeed.ts:143-215 | k failed connection attempts in a row arm at most k timers and never more than the attempts left below 5; ReconnectRunShape gives the timers themselves |
| PriceFeed.BackoffsAt | lib/priceFeed.ts:207-208 | timer i of a reference run starting at attempt `from` has the delay of attempt from+i and carries the run's address |
| PriceFeed.ReconnectRunShape | lib/priceFeed.ts:201-215 | k reconnect requests in a row from counter a arm exactly min(k, 5-a) timers carrying the requested address, with the delays of attempts a+1, a+2, … |
| PriceFeed.ReconnectRunStep | lib/priceFeed.ts:201-214 | below the cap, one more reconnect request puts the next attempt's backoff in front of the run |
| PriceFeed.BackoffsCons | lib/priceFeed.ts:207-208 | a reference run of backoffs is the delay of its first attempt followed by the run from the next attempt |
| PriceFeed.ReconnectRunCons | lib/priceFeed.ts:201-214 | below the cap, a reconnect request arms the next attempt's timer with its address, then the run goes on from the next counter |
| PriceFeed.ReconnectRunAtCap | lib/priceFeed.ts:202-205 | at the cap of 5, reconnect requests arm nothing |
| PriceFeed.FailingReconnectsFromFresh | lib/priceFeed.ts:143-215 | a chain of failing connection attempts for an address, from a fresh counter, arms min(k, 5) timers of 1000·2^i ms, each carrying the address so its firing tries again, and then gives up |
| PriceFeed.CloseRunUnaddressed | lib/priceFeed.ts:192-199 | a run of close events is a run of reconnect requests without an address |
| PriceFeed.CloseRunShape | lib/priceFeed.ts:192-215 | k successive drops from counter a arm exactly min(k, 5-a) address-less timers, with the delays of attempts a+1, a+2, … |
| PriceFeed.CloseRunFromFresh | lib/priceFeed.ts:192-215 | from a fresh counter, k drops arm min(k, 5) timers of 1000·2^i ms, none of which reconnects |
| PriceFeed.TickTime | lib/priceFeed.ts:157 | a present non-zero `d.t` gives its second; a missing or zero one gives now's second |
| PriceFeed.Classify | lib/priceFeed.ts:149-186 | a frame with `d.p` is a tick exactly when the price is a number > 0, and the tick is one flat candle at that price; otherwise it is an invalid price. Without `d.p`, it is an ack iff `id` is 1 and `result` is truthy; anything else is unhandled; unparseable JSON is a parse error |
| PriceFeed.ClassifyExample | lib/priceFeed.ts:155-176 | concrete frames: a stamped price makes a flat candle at its second; a zero, negative or NaN price is refused |
| PriceFeed.SubscriptionFor | lib/priceFeed.ts:127-134 | the subscription has method SUBSCRIPTION, id 1 and the two topic names for the address |
| PriceFeed.FanOut | lib/priceFeed.ts:225-227 | one call per listener entry, in list order, each with the candle |
| PriceFeed.Without | lib/priceFeed.ts:221-223 | the removed callback no longer occurs in the list |
| PriceFeed.WithoutCounts | lib/priceFeed.ts:222 | removal deletes every occurrence of the callback and keeps every other entry as often as it occurred |
| PriceFeed.WithoutAppend | lib/priceFeed.ts:222 | removal distributes over concatenation, so survivors keep their relative order |
| PriceFeed.WithoutAbsent | lib/priceFeed.ts:222 | removing an unregistered callback changes nothing |
| PriceFeed.AddThenRemove | lib/priceFeed.ts:217-227 | adding then removing a callback equals just removing it, and afterwards it receives no fan-out |
| PriceFeed.PriceFeedService.constructor | lib/priceFeed.ts:50-62 | no socket, counter 0, no listeners, nothing armed, sent or delivered |
| PriceFeed.PriceFeedService.ScheduleReconnect | lib/priceFeed.ts:201-215 | at the cap nothing changes; otherwise the counter goes up by one and one timer with the doubled delay and the given address is armed |
| PriceFeed.PriceFeedService.ConnectWebSocket | lib/priceFeed.ts:114-147 | a socket is created for the address; when the constructor throws, a reconnect carrying the address is scheduled instead |
| PriceFeed.PriceFeedService.FireTimer | lib/priceFeed.ts:210-214 | a fired timer is removed and reconnects only when it captured a non-empty address: on success the socket is for that address and the counter is kept; when the socket constructor throws, the connection state is kept and the next reconnect is scheduled as `ScheduleStep` says, so successive failures follow `ReconnectRun`; without an address nothing else changes |
| PriceFeed.PriceFeedService.OnOpen | lib/priceFeed.ts:122-138 | the counter resets to 0 and exactly one subscription for the socket's address is sent |
| PriceFeed.PriceFeedService.OnMessage | lib/priceFeed.ts:149-186 | only a valid tick reaches the listeners, each once in order; acks, invalid prices, other frames and parse errors deliver nothing |
| PriceFeed.PriceFeedService.OnClose | lib/priceFeed.ts:192-199 | the socket is dropped and, below the cap, a reconnect without an address is scheduled |
| PriceFeed.PriceFeedService.AddListener | lib/priceFeed.ts:217-219 | the callback is appended, duplicates kept |
| PriceFeed.PriceFeedService.RemoveListener | lib/priceFeed.ts:221-223 | every entry equal to the callback is removed, the rest keep their order |
| PriceFeed.PriceFeedService.NotifyListeners | lib/priceFeed.ts:225-227 | the deliveries added are exactly one per listener entry, in list order |
| PriceFeed.PriceFeedService.Disconnect | lib/priceFeed.ts:229-236 | afterwards there is no socket, no listener and the counter is 0; armed timers stay |
| TransformImageRoute.InWindow | app/api/transform-image/route.ts:22-23 | the filtered list is never longer than the stored one |
| TransformImageRoute.InWindowMembers | app/api/transform-image/route.ts:22-23 | the filter keeps exactly the stamps less than 60 000 ms old |
| TransformImageRoute.RateLimitStep | app/api/transform-image/route.ts:18-32 | a request passes iff fewer than 5 stored stamps are in the window; a pass stores ≤ 5 stamps ending with now, a refusal stores nothing new |
| TransformImageRoute.WindowIsStrict | app/api/transform-image/route.ts:15-23 | a stamp exactly 60 000 ms old no longer counts; one a millisecond younger does |
| TransformImageRoute.AdmitKeepsInv | app/api/transform-image/route.ts:18-32 | a request no earlier than every accepted one keeps the invariant (stored list = accepted stamps in the window of the latest acceptance; accepted stamps non-decreasing), and the limiter counts the same in-window stamps as the accepted ones |
| TransformImageRoute.AppendLatest | app/api/transform-image/route.ts:28-31 | appending the current stamp, no earlier than every stored one, keeps the stamps in order and bounded by it |
| TransformImageRoute.ReplayInvariant | app/api/transform-image/route.ts:18-32 | with a clock that does not go back, that invariant holds after any sequence of one IP's requests, bounded by the latest request |
| TransformImageRoute.AtMostFivePerWindow | app/api/transform-image/route.ts:14-32 | with a clock that does not go back, any six accepted requests of one IP span at least 60 000 ms, so no window holds more than five |
| TransformImageRoute.RateLimiter.constructor | app/api/transform-image/route.ts:14 | the store starts empty |
| TransformImageRoute.RateLimiter.CheckRateLimit | app/api/transform-image/route.ts:18-32 | a refusal leaves the map unchanged; a pass replaces only this IP's list with the in-window stamps plus now; other IPs are untouched |
| TransformImageRoute.RateLimiter.Post | app/api/transform-image/route.ts:210-275 | the client IP is rate-limited first and the answer is the outcome of the fixed check order; the store changes only on a pass |
| TransformImageRoute.MatchesAtSlice | app/api/transform-image/route.ts:57-60 | comparing byte by byte with past-the-end reads failing matches exactly when the whole signature is present at its offset |
| TransformImageRoute.MatchesAt | app/api/transform-image/route.ts:57-59 | the byte-by-byte comparison, past-the-end reads failing; MatchesAtSlice states it is slice equality |
| TransformImageRoute.HasImageSignature | app/api/transform-image/route.ts:56-61 | a JPEG, PNG or WebP signature at its place; SignatureBytes and DeclaredTypeNotMatched state its consequences |
| TransformImageRoute.ValidateImage | app/api/transform-image/route.ts:35-69 | the type is checked first, then the size (> 10 MiB fails), then readability; an image is accepted exactly when all checks and the signature pass |
| TransformImageRoute.SignatureBytes | app/api/transform-image/route.ts:57-65 | the bytes pass iff FF D8 at 0, or 89 50 4E 47 at 0, or 57 45 42 50 at 8; fewer than two bytes never pass |
| TransformImageRoute.SizeBoundary | app/api/transform-image/route.ts:44-49 | exactly 10 MiB passes; one byte more is rejected as too large |
| TransformImageRoute.DeclaredTypeNotMatched | app/api/transform-image/route.ts:36-65 | JPEG bytes declared as PNG are accepted: the declared type and the signature are not compared |
| TransformImageRoute.ParseParams | app/api/transform-image/route.ts:231-233 | steps lie in [1,100], guidance in [1,30] and strength in [0.1,1]; missing fields give 30, 12 and 0.9; in-range values are kept and out-of-range steps are clamped to the nearer bound |
| TransformImageRoute.PromptOf | app/api/transform-image/route.ts:228 | an empty or missing prompt is no prompt; otherwise it is passed on |
| TransformImageRoute.ClientIp | app/api/transform-image/route.ts:213-215 | x-forwarded-for if non-empty, else x-real-ip if non-empty, else "unknown" |
| TransformImageRoute.Decide | app/api/transform-image/route.ts:218-255 | a rate-limited request is refused before anything else; a forwarded request had a form and an image the validator accepted |
| TransformImageRoute.StatusOf | app/api/transform-image/route.ts:218-272 | every refusal is answered with a status from 400 to 599, only a forwarded request has none, and 500 is the status of an unreadable form alone |
| TransformImageRoute.RejectionOrder | app/api/transform-image/route.ts:218-249 | 429 exactly when rate-limited; an unreadable form then gives 500; a missing image gives 400 before validation; a failed validation gives its reason with 400; an allowed request with a valid image is forwarded with that image, its prompt (or the default) and the clamped parameters |
| ImageUpload.ValidateFile | components/ImageUpload.tsx:39-49 | a type error comes before the size check; a size error iff size > maxSizeMB·1024·1024; otherwise the file is accepted |
| ImageUpload.DefaultsMatchRoute | components/ImageUpload.tsx:21-22 | with the default limits the widget refuses a type, or a size, exactly when the route would |
| ImageUpload.Uploader.constructor | components/ImageUpload.tsx:26-28 | no drag highlight, no preview, no error, nothing selected |
| ImageUpload.Uploader.HandleFileSelection | components/ImageUpload.tsx:51-64 | a refused file sets the error and reaches no one; an accepted file clears the error, is passed to `onFileSelect` once and gets a preview |
| ImageUpload.Uploader.HandleFileInput | components/ImageUpload.tsx:66-71 | the first chosen file, if any, goes through the selection |
| ImageUpload.Uploader.HandleDrop | components/ImageUpload.tsx:73-81 | the drag highlight goes off, and the first dropped file, if any, goes through the selection |
| ImageUpload.Uploader.HandleDragOver | components/ImageUpload.tsx:83-86 | the drag highlight goes on |
| ImageUpload.Uploader.HandleDragLeave | components/ImageUpload.tsx:88-91 | the drag highlight goes off |
| ImageUpload.Uploader.HandleRemoveFile | components/ImageUpload.tsx:93-103 | a preview URL is revoked and cleared, the error is cleared and `onFileRemove` is called once |
| ImageSlider.Next | components/ImageSlider.tsx:70-72 | the next index is (i+1) mod n |
| ImageSlider.Previous | components/ImageSlider.tsx:66-68 | the previous index is (i-1+n) mod n |
| ImageSlider.PreviousUndoesNext | components/ImageSlider.tsx:66-72 | next then previous, and previous then next, return to the original index |
| ImageSlider.Ticks | components/ImageSlider.tsx:30-34 | any number of auto-play ticks keeps the index in [0, n) |
| ImageSlider.TicksAreModular | components/ImageSlider.tsx:30-34 | k auto-play ticks from i land on (i+k) mod n |
| ImageSlider.FullTurn | components/ImageSlider.tsx:30-34 | n ticks bring the carousel back to the same slide |
| ImageSlider.ControlsFor | components/ImageSlider.tsx:78-211 | with no images nothing navigable is rendered; arrows, one dot per slide (each a valid index) and the `i+1 / n` counter appear only with more than one image |
| ImageSlider.AutoPlayArmed | components/ImageSlider.tsx:28 | the interval is armed only with auto-play on and more than one image; Slider.AutoPlayTick requires it |
| ImageSlider.Slider.constructor | components/ImageSlider.tsx:21-24 | index 0, not fullscreen, loading, no error |
| ImageSlider.Slider.SetIndex | components/ImageSlider.tsx:48-51 | an index change marks the new image loading and clears the error; setting the same index changes nothing |
| ImageSlider.Slider.GoToNext | components/ImageSlider.tsx:70-72 | the index becomes (i+1) mod n and stays valid; the loading flags reset only when the index changes |
| ImageSlider.Slider.GoToPrevious | components/ImageSlider.tsx:66-68 | the index becomes (i-1+n) mod n and stays valid; the loading flags reset only when the index changes |
| ImageSlider.Slider.GoToSlide | components/ImageSlider.tsx:74-76 | a dot, offered only for an existing slide, jumps straight to it; the current slide's dot leaves the loading flags as they were |
| ImageSlider.Slider.AutoPlayTick | components/ImageSlider.tsx:27-37 | a tick, possible only with auto-play on and more than one image, applies the next-arrow wrap |
| ImageSlider.Slider.ImageLoaded | components/ImageSlider.tsx:53-59 | the load handler clears the loading and error flags |
| ImageSlider.Slider.ImageFailed | components/ImageSlider.tsx:61-64 | the error handler clears loading and sets the error |
| ImageSlider.Slider.OpenFullscreen | components/ImageSlider.tsx:82-84 | the fullscreen view opens; the index and flags are unchanged |
| ImageSlider.Slider.CloseFullscreen | components/ImageSlider.tsx:86-88 | the fullscreen view closes; the index and flags are unchanged |
| HowToBuyDialog.Advance | components/HowToBuyDialog.tsx:18-22 | next adds 1 below step 3 and is a no-op at 3; the step stays in 1..3 |
| HowToBuyDialog.Retreat | components/HowToBuyDialog.tsx:24-28 | back subtracts 1 above step 1 and is a no-op at 1; the step stays in 1..3 |
| HowToBuyDialog.BackUndoesNext | components/HowToBuyDialog.tsx:18-28 | back undoes a next that moved, and next undoes a back that moved |
| HowToBuyDialog.AdvanceTimes | components/HowToBuyDialog.tsx:18-22 | pressing next any number of times stays within steps 1 to 3 and never goes back; AdvanceTimesSaturates gives its value |
| HowToBuyDialog.AdvanceTimesSaturates | components/HowToBuyDialog.tsx:18-22 | k presses of next from step s reach min(s+k, 3) |
| HowToBuyDialog.FooterFor | components/HowToBuyDialog.tsx:144-171 | Back is disabled iff the step is 1; the forward button is Finish iff the step is 3 |
| HowToBuyDialog.StepLinks | components/HowToBuyDialog.tsx:35-75 | there are three steps; the first links to the wallet download, the second has no link, the third links to the token page |
| HowToBuyDialog.Dialog.constructor | components/HowToBuyDialog.tsx:13 | the dialog starts at step 1 |
| HowToBuyDialog.Dialog.View | components/HowToBuyDialog.tsx:16-135 | a closed dialog renders nothing; an open one shows `steps[currentStep-1]`, always in range, with its footer |
| HowToBuyDialog.Dialog.NextStep | components/HowToBuyDialog.tsx:18-22 | the step advances as `Advance` says and stays in 1..3 |
| HowToBuyDialog.Dialog.PrevStep | components/HowToBuyDialog.tsx:24-28 | the step retreats as `Retreat` says and stays in 1..3 |
| HowToBuyDialog.Dialog.HandleClose | components/HowToBuyDialog.tsx:30-33 | from any step the step resets to 1 and `onClose` is called once |
| HowToBuyDialog.Dialog.PressPrimary | components/HowToBuyDialog.tsx:157-171 | below the last step the button advances; on the last step it is Finish, which resets to 1 and closes |
| HowToBuyDialog.Dialog.SetOpen | components/HowToBuyDialog.tsx:6-16 | the parent's `isOpen` changes what is rendered, not the step |

## Left out

- **Transport internals.** `fetch`, the WebSocket protocol, `JSON.parse` and the real scheduling of `setTimeout`/`setInterval` are abstract events and parameters.
- **The socket's error handler** (`lib/priceFeed.ts:188-190`) only logs, so it is not modelled.
- **Logging.** `console.log` and `console.error` are not modelled.
- **A listener that throws.** In `notifyListeners` (`lib/priceFeed.ts:225-227`), an exception from one listener stops the rest of the fan-out. `FanOut` and `NotifyListeners` treat every listener call as returning normally.
- **Interleaving.** A close event that `disconnect`'s `close()` triggers later is not modelled as part of `Disconnect`; it arrives as a separate `OnClose` event. The same goes for a late-firing timer of an old socket.
- **`transformImageWithAI` and `transformWithReplicate`** (`app/api/transform-image/route.ts:71-206`): calls to an external generation service, with base64 encoding and polling. The model stops at the `Forward` outcome. A failure after forwarding, and a failure to read the buffer a second time, would answer 500; that status is not modelled.
- **The GET health check** (`app/api/transform-image/route.ts:277-283`) has no logic.
- **TransformImageRoute.ParseParams**:
  - does not model the `NaN` that `parseInt`/`parseFloat` return for non-numeric text, nor `parseInt`'s truncation of text such as "3.7";
  - takes the fields as already-parsed numbers (`None` for absent or empty).
- **TransformImageRoute.RateLimiter.Post**: `formData()` throwing is the single `FormError` outcome (status 500). Other exceptions inside the handler are not distinguished.
- **PriceHistory.GenerateMockData**:
  - the four `Math.random()` values per candle are a given `Draw`;
  - only their range [0, 1) is assumed, so the actual price values are not fixed.
- **Floating point.** Prices, market caps and percent changes are reals, not IEEE doubles. Rounding, and `NaN` other than the explicit `NotANumber` price, are not modelled.
- **`formatFileSize`** (`components/ImageUpload.tsx:31-37`) uses logarithms and only formats text.
- **Object URLs.** `URL.createObjectURL` is a parameter. Clearing the hidden input's value is DOM plumbing and is not modelled.
- **ImageSlider.Slider.ImageLoaded**:
  - models only the delayed half of `handleImageLoad`, as one event;
  - does not model a 100 ms timer that outlives a slide change.
- **ImageSlider.Slider** treats `images` as fixed. A change of the `images` prop, which could leave the index past the end, is not modelled.
- **Image preloading and downloading** (`components/ImageSlider.tsx:40-45, 90-105`) are browser I/O.
- **UI-only components**, with no logic: `TokenChart.tsx`, `VideoSection.tsx`, `HeroVideo.tsx`, `ScrollSnap.tsx`, `CopyButton.tsx`, `MissionSection.tsx`, `NavigationButtons.tsx`, `HowToBuyButton.tsx` and `BackToTopButton.tsx`.
- **`middleware.ts`** only configures the i18n library. Its locale list, like the switcher's, lacks `ru`, which `i18n/request.ts:5` accepts. That is a data mismatch, not behaviour.
- **The message-catalogue import** in `i18n/request.ts:18` is I/O.
- **Strings.** They are sequences of characters, with no Unicode normalisation.
