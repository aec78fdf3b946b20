# Tokenizer filename and update model

This project models the logic of the vtta-tokenizer form (`Tokenizer` in
`src/tokenizer/index.js`) that decides where the composed portrait and token
images go and what is written back onto the actor:

- `_getFilename` picks the upload target. An ordinary name is
  `<slug>.<suffix>.png`. For the token of a wildcard actor
  (`data.token.randomImg`) the target is a numbered file in a series. The
  series pattern is the actor's own token image when it already holds a `*`.
  Otherwise it is `<current>/<slug>.Token-*.png`. A do-while loop tries
  indices 1, 2, ... (`padStart(3, "0")`, every `*` replaced) until it finds a
  file the directory listing does not hold.
- `_updateObject` builds the actor update. The portrait is always the
  uploaded avatar plus `?<timestamp>`. An ordinary actor's token image is the
  uploaded token plus `?<timestamp>`. A wildcard actor whose token image has
  no `*` gets a fresh pattern, named with the inline slug of line 82. A
  wildcard actor that already has a pattern keeps it.
- The inline helpers: the line-82 slug, the trimming of the default-frame
  setting, and the actor-type mapping `character` → `pc`, else `npc`.

Modules: `Text` (decimal rendering, `padStart`, replacement of `*`),
`Wildcard` (template, candidates, the free-index loop, `_getFilename`),
`Names` (slug, frame path, actor kind), `Update` (the update and its effect
on the actor record), `Opt` (an option type).

Host services become parameters:
- `Utils.makeSlug(name)` is the `slug` argument.
- The upload directory `options.current` is `current`.
- `FilePicker.browse` is a function `browse` from pattern to listing.
- The module settings are a function `setting` from key to value.
- The upload results are the URL arguments, or `Option`s in `Submit`.
- Each `+new Date()` is a natural-number argument.

Behaviour of the code worth knowing:
- The code replaces every `*` in the pattern (`/\*/g`), not only the first.
- The index has no upper limit. `padStart` never truncates, so index 1000
  and up render in full (`1000`). Distinct indices give distinct names
  (`CandidateInjective`), so the loop tries at most |files| + 1 indices and
  stops (`NextFreeFilename`).
- A wildcard actor whose token image already holds a `*` gets no `token`
  field in the update, so its pattern is kept (`WildcardPatternKept`).

## Model

| member | source | states |
|---|---|---|
| `Text.DecimalString` | src/tokenizer/index.js:53 | `count.toString()`: at least one character, all decimal digits, no leading zero for a positive number |
| `Text.DecimalStringRoundTrip` | src/tokenizer/index.js:53 | reading the digits back gives the number, so the rendering is injective |
| `Text.DecimalStringInjective` | src/tokenizer/index.js:53 | equal renderings come from equal numbers, a corollary of the round trip |
| `Text.PadStart` | src/tokenizer/index.js:53 | `padStart`: the result is the input with fill characters in front, exactly `width` long when shorter, the input unchanged (never truncated) when not |
| `Text.IndexString` | src/tokenizer/index.js:53 | `count.toString().padStart(3, "0")`: only decimal digits, at least three of them |
| `Text.IndexStringRoundTrip` | src/tokenizer/index.js:53 | leading zeros lose nothing: the padded index reads back as the index |
| `Text.IndexStringInjective` | src/tokenizer/index.js:53 | distinct indices render as distinct strings |
| `Text.IndexStringWidth` | src/tokenizer/index.js:53 | indices 1..999 render as exactly 3 digits; indices of 1000 and more render as their full decimal form, 4 digits or more |
| `Text.IndexStringFirstThree` | src/tokenizer/index.js:53 | indices 1, 2 and 3 render as `001`, `002` and `003` |
| `Text.IndexStringExamples` | src/tokenizer/index.js:53 | 42 renders as `042`; 1000 renders as `1000` |
| `Text.ReplaceStars` | src/tokenizer/index.js:54 | replacing every `*` by a star-free string leaves no `*`; a template without `*` comes back unchanged |
| `Text.ReplaceStarsConcat` | src/tokenizer/index.js:54 | the replacement works piece by piece over a concatenation |
| `Text.ReplaceStarsLengthMonotone` | src/tokenizer/index.js:54 | a longer replacement gives a result that is no shorter, and strictly longer when there is a `*` |
| `Text.ReplaceStarsInjective` | src/tokenizer/index.js:54 | for a template holding a `*`, equal results imply equal replacements |
| `Wildcard.ChooseTemplate` | src/tokenizer/index.js:39-44 | the pattern always holds a `*`; it is the token image itself when that holds a `*`, otherwise `current/slug.Token-*.png` |
| `Wildcard.PlainFilename` | src/tokenizer/index.js:59 | `${actorName}.${suffix}.png`: the slug, a `.`, the suffix and `.png`; free of `*` when slug and suffix are |
| `Wildcard.PlainFilenameSuffixes` | src/tokenizer/index.js:59 | for one slug, different suffixes give different names, so the `Avatar` and `Token` files never coincide |
| `Wildcard.Candidate` | src/tokenizer/index.js:53-54 | a probed name never contains `*` |
| `Wildcard.CandidateInjective` | src/tokenizer/index.js:53-54 | distinct indices probe distinct names |
| `Wildcard.CandidateOfSingleStar` | src/tokenizer/index.js:53-54 | for `<before>*<after>` the candidate is `<before><index><after>` |
| `Wildcard.FirstFreeUnique` | src/tokenizer/index.js:49-55 | at most one index is first-free, so the result depends only on the pattern and the listing |
| `Wildcard.FirstFreeOfEmptyListing` | src/tokenizer/index.js:49-55 | with an empty listing the first free index is exactly 1, i.e. `*` replaced by `001` |
| `Wildcard.EmptyListingGivesFirst` | src/tokenizer/index.js:49-54 | `<before>*<after>` with an empty listing resolves to `<before>001<after>` (e.g. `d/gob.Token-*.png` to `d/gob.Token-001.png`) |
| `Wildcard.TwoTakenGivesThird` | src/tokenizer/index.js:49-55 | with `...001...` and `...002...` listed, the first free index is 3 and the name is `<before>003<after>` |
| `Wildcard.ListedCandidatesBound` | src/tokenizer/index.js:51-55 | pigeonhole: if the candidates of 1..n are all listed then n ≤ \|files\|, which is why the loop terminates |
| `Wildcard.NextFreeFilename` | src/tokenizer/index.js:49-57 | the do-while loop returns the first free index: its name is not listed, every smaller index's name is, the name has no `*`, and the index is at most \|files\|+1 |
| `Wildcard.GetFilename` | src/tokenizer/index.js:32-60 | a wildcard token gets the first free name of the chosen pattern in the listing of that pattern, so that name is not listed and has no `*`; any other case gets `slug.suffix.png`, whatever the listing is |
| `Names.MaskNonSlugChars` | src/tokenizer/index.js:82 | `[^\w.]` → `_`: same length, characters of `[\w.]` kept in place, all others become `_` |
| `Names.DropUnderscoreRuns` | src/tokenizer/index.js:82 | `__+` → "": the result has no two adjacent `_` and is no longer than the input; it adds no new character and keeps the `[\w.]` alphabet |
| `Names.DropUnderscoreRunsConcat` | src/tokenizer/index.js:82 | splitting the input after a character other than `_` splits the result the same way: runs never cross such a point |
| `Names.DropUnderscoreRunsOfRun` | src/tokenizer/index.js:82 | a maximal run of `k` underscores is deleted entirely when `k` ≥ 2, and a lone `_` is kept, whatever surrounds it |
| `Names.NameSlug` | src/tokenizer/index.js:82 | the slug uses only `[A-Za-z0-9_.]` and never has two consecutive underscores |
| `Names.DropUnderscoreRunsKeepsOthers` | src/tokenizer/index.js:82 | only underscores are deleted: the other characters are kept, in order |
| `Names.NameSlugFixedPoints` | src/tokenizer/index.js:82 | a name is its own slug exactly when it uses only `[\w.]` and has no `__`; hence the slug is idempotent |
| `Names.TrimSlashes` | src/tokenizer/index.js:137 | `replace(/^\/\|\/$/g, "")`: at most two characters are removed, and a value with no `/` at either end is unchanged |
| `Names.TrimSlashesRestore` | src/tokenizer/index.js:137 | what is removed is exactly a leading `/` and a trailing `/`, and putting them back restores the setting |
| `Names.Trim` | src/tokenizer/index.js:139 | `String.prototype.trim`: the result is a contiguous part of the input with only white space cut off before and after it; nothing is left exactly when the string is all white space, and what is left neither starts nor ends with white space |
| `Names.IsPresent` | src/tokenizer/index.js:139 | `defaultFrame && defaultFrame.trim() !== ""` holds exactly when the string has a character that is not white space |
| `Names.ActorKind` | src/tokenizer/index.js:136 | the kind is `pc` or `npc`, and `pc` exactly for `character` |
| `Names.FrameSettingKey` | src/tokenizer/index.js:136-137 | the key read is `default-frame-pc` exactly for a `character`, and `default-frame-npc` for every other type |
| `Names.DefaultFrame` | src/tokenizer/index.js:136-139 | a frame is used exactly when the trimmed setting has a non-whitespace character; the frame is the raw setting of the actor's key with at most one `/` cut from each end |
| `Update.CacheBusted` | src/tokenizer/index.js:77 | `url + "?" + +new Date()`: the URL, then `?`, then at least one decimal digit and nothing else |
| `Update.CacheBustedRoundTrip` | src/tokenizer/index.js:77 | `url?timestamp` splits at its last `?` back into the URL and the timestamp's digits, which read back as the timestamp |
| `Update.FreshPattern` | src/tokenizer/index.js:89 | the pattern written for a newly wildcarded token always holds a `*` |
| `Update.BuildUpdate` | src/tokenizer/index.js:76-96 | the update has a `token` field exactly when the actor is not wildcard or its token image has no `*` |
| `Update.ApplyUpdate` | src/tokenizer/index.js:98 | the merge changes the portrait and, when present, the token image, and nothing else |
| `Update.Submit` | src/tokenizer/index.js:71-98 | when either upload fails the actor record is unchanged; when both succeed the record is the actor with the update of lines 76-96 merged in |
| `Update.PortraitIsUploadedAvatar` | src/tokenizer/index.js:76-78 | the portrait is always the uploaded avatar URL followed by `?` and the timestamp |
| `Update.OrdinaryTokenIsUploadedFile` | src/tokenizer/index.js:92-95 | a non-wildcard actor's token image is the uploaded token URL with its timestamp; it is not a pattern whenever the uploaded URL has no `*` |
| `Update.WildcardTokenStaysPattern` | src/tokenizer/index.js:81-91 | after a submit a wildcard actor's token image holds a `*`; the update does not depend on the uploaded token URL, so it never records the resolved file |
| `Update.WildcardPatternKept` | src/tokenizer/index.js:85-91 | an existing pattern is kept unchanged, so a second submit leaves the token image where the first put it |
| `Update.StoredPatternIsResolverTemplate` | src/tokenizer/index.js:85-89 | if `makeSlug` agrees with the line-82 slug, the stored pattern is the one the upload target was resolved in (lines 39-44), so the uploaded file belongs to the stored series |
| `Update.SubmitIsAtomic` | src/tokenizer/index.js:71-98 | when both uploads succeed the portrait and the token image (uploaded file or pattern) are set together; when either fails the record is unchanged |

## Left out

- The form shell is not modelled: `FormApplication`, `defaultOptions`, `getData`, `activateListeners` event wiring, jQuery/DOM access and the download `Dialog`. It is UI.
- The compositing `View` (its sizes, layers and masks), `Utils.download`, `Utils.upload` and `Utils.uploadToFoundryV3` are not modelled. They decode images, draw on a canvas or do network I/O in files that are not part of this model.
- `Utils.makeSlug` is not part of this model. Its result is the `slug` parameter, which is not assumed equal to the line-82 slug. `StoredPatternIsResolverTemplate` states what follows when the two agree. When they differ, the uploaded file need not belong to the stored pattern.
- `DirectoryPicker.parse` is a host API. Its `current` field is the `current` parameter. Its `activeSource` is folded into `browse`. The parse of the default-frame path before `Utils.download` is not modelled, so `DefaultFrame` returns the trimmed path itself.
- `game.settings`, `game.user.can` and `ui.notifications` are host APIs. Settings are a function parameter. The notification text at line 87 is not modelled.
- Promises, `Promise.all` and the order of the asynchronous steps are not modelled. `Submit` assumes a failed upload rejects before `actor.update` is called.
- GetFilename: the default `suffix = "Avatar"` of line 32 is not modelled; the model always takes the suffix as an argument, as both callers (lines 123 and 127) pass it.
- `NextFreeFilename` requires a `*` in the pattern. `_getFilename` always supplies one (`ChooseTemplate`). Without a `*` and with the pattern listed, the JavaScript loop would never stop.
- Strings are sequences of Unicode scalar values, not UTF-16 code units. In JavaScript a character outside the Basic Multilingual Plane is two code units. The line-82 slug turns it into `__`, which is then deleted. `NameSlug` turns it into a single `_`.
- `ApplyUpdate` models the host's merge of a partial update only for the two fields the tokenizer writes.
