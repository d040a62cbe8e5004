# Cleromancer: a Dafny model of the casting session, history API, locales and translation generator

Cleromancer is a Next.js I Ching application. The user sets an intention,
tosses six lines of three coins (or enters the tosses by hand), watches a 3D
animation, and receives a hexagram with its Wilhelm text and an AI
interpretation. Signed-in users have their readings saved through a small
history API. A navbar selector switches the locale segment of the URL. A
build script produces per-language translation files through the DeepL API.

This project models the logic of those pieces in Dafny and proves the
properties their code promises.

- `home.dfy` (module `Home`) holds the home page session as a class
  `HomeSession`. Its fields are the component's state hooks.
  - The intention, manual mode, coin tosses and displayed tosses are fields.
  - The cast result (hexagram, trigrams, hexagram data) is one `Cast` value.
  - The screen gates (`tossed`, `isShowingCanvas`, `animate`,
    `tossesComplete`, `showResults`) are one `Screen` value.
  - The two one-shot latches are `intentionTriggered` and `historySaved`.
  - Ghost logs `aiRequests` and `posts` record every AI request and every
    history write the page issues.
  - Methods stand for the two handlers, the two effects, the canvas
    callbacks and the toss button. Each effect is a method the caller may
    invoke at any time, any number of times.
  - The class invariant proves the latches: at most one AI request per
    session, and at most one history write since the latest toss or reset.
- `results.dfy` (module `Results`) holds the default coin state, the coins
  the canvas receives, and which panels the results section shows.
- `coins.dfy` (module `Coins`) holds the coin rule (heads 3, tails 2) and
  `Array.prototype.flat` on toss triples.
- `toss_results.dfy` (module `TossResults`) holds the toss formatter: one
  row per toss, the "H"/"T" letters joined by ", ", and the heads/tails
  icons.
- `history.dfy` (module `History`) holds the `/api/history` route. `HistoryStore` is a
  class with an append-only sequence of records. `Post` validates and
  creates a record. `Get` lists the caller's records, newest first.
- `locale.dfy` (module `Locale`) holds the locale constants, the language
  selector's path rewrite and the per-request locale resolution.
- The translation generator is split across five modules:
  - `translation_data.dfy` builds the English record. `translation_flatten.dfy`
    flattens it into texts plus an index-to-path map.
  - `translation_batch.dfy` holds `translateBatch`. `translation_rebuild.dfy`
    rebuilds a file from translated texts and dotted paths.
  - `translation_main.dfy` runs every target language and writes its file
    under its code.
  - The main result is that rebuilding the untranslated flattened texts
    gives the English file back (`RebuildInvertsFlatten`).
- `strings.dfy` (module `Strings`) holds the JavaScript string operations
  the code relies on: `split`, `join`, `String(n)`, `parseInt`, `trim` and
  `toLowerCase`.
- `wrappers.dfy` (module `Wrappers`) holds `Option`.

Several things the model proves follow the code where the code may not match
what its authors meant:

- `handleGenerate`'s loop runs `i <= NUMBER_OF_TOSSES`, so it produces seven
  triples (21 coins), not six. The history route accepts both 21 and 18
  coins. The model keeps seven (`GeneratedTossesShape`).
- `intentionTriggered` is never cleared. After the first AI request the
  casting effect does nothing, even after a new toss (`CastingEffect`).
- `translateBatch` drops blank texts and does not keep a placeholder for
  them. Its output then has one text fewer per blank, and every later text
  moves one index early (`BlankShiftsLaterTexts`, `TranslatedLength`). The
  index-to-path map keeps an entry for every text, blank or not
  (`OfEncodes`), and `Rebuild` pairs translation `i` with entry `i`
  (`Rebuild`). The model proves these two facts separately. It does not
  prove, as one lemma, which path each shifted translation is written to.
- "PT-PT" and "PT-BR" are both written to the directory `pt`. The Brazilian
  file, written second, replaces the European one (`PortugueseFile`).

## Model

| member | source | states |
|---|---|---|
| Home.HomeSession.constructor | src/components/Home/Home.tsx:33-51 | every state hook starts at its initial value (empty intention and tosses, no cast, input screen, both latches open), and the class invariant holds |
| Home.HomeSession.HandleGenerate | src/components/Home/Home.tsx:54-77 | clears the cast, the displayed tosses and `historySaved`. Sets tossed, canvas, animation and results on, and tossesComplete off. The tosses become the generated seven triples. Intention, `intentionTriggered` and the logs are unchanged, and the invariant is kept |
| Home.GeneratedTossesShape | src/components/Home/Home.tsx:68-76 | the loop yields NUMBER_OF_TOSSES + 1 = 7 triples; every coin is 2 or 3; the flattened list has 21 coins |
| Coins.Coin | src/components/Home/Home.tsx:71-73 | `Math.random() > 0.5 ? 3 : 2` is always 2 or 3 |
| Coins.FlatOfTriples | src/components/Home/Home.tsx:130 | `flat()` of triples has three times as many coins, coin j of toss i at position 3i + j |
| Home.HomeSession.HandleReset | src/components/Home/Home.tsx:79-91 | clears the tosses, displayed tosses and cast, and turns every screen gate off. Reopens the history latch and leaves `intentionTriggered` and the intention alone |
| Home.HomeSession.CastingEffect | src/components/Home/Home.tsx:94-124 | a no-op unless tossesComplete and not intentionTriggered. Otherwise it stores the hexagram, stores trigrams only when both are found, and stores the lookup result. It issues one AI request exactly when a hexagram was found and the intention is non-empty, and sets the latch in the same step. At most one AI request is ever issued |
| Home.HomeSession.HistoryEffect | src/components/Home/Home.tsx:126-157 | posts exactly when result is truthy, not loading, no error, not yet saved, signed in and the flat toss count is 21 or 18. It then appends that post and sets `historySaved`; otherwise nothing changes. At most one post per generate/reset |
| Home.HomeSession.PostFor | src/components/Home/Home.tsx:130-142 | the body carries the flattened tosses, and a hexagram number exactly when hexagram data was found |
| Home.PostAcceptedIffHexagram | src/components/Home/Home.tsx:131-142 | every post the page issues passes the route's validation exactly when it carries a hexagram number; the toss count always passes |
| Home.HomeSession.PressTossButton | src/components/Home/Home.tsx:200-209 | the button, when shown and enabled (intention set, not animating), generates. The tosses become the seven fresh triples, the displayed tosses and the previous cast are cleared, the results section opens animating, and the history latch reopens. The intention, the mode and the interpretation latch stay as they were. The button is only ever enabled before a toss, so its reset branch never runs. Otherwise nothing changes |
| Home.HomeSession.SetIntention | src/components/Home/Home.tsx:180-184 | the intention becomes the typed text and nothing else changes |
| Home.HomeSession.SetManualMode | src/components/Home/Home.tsx:278-283 | the manual-mode flag becomes the given value (on for the input-tosses button, off for the reset-tosses button at line 233) and nothing else changes |
| Home.HomeSession.OnAnimationEnd | src/components/Results/Results.tsx:93-96 | sets animate off and tossesComplete on, and changes nothing else |
| Home.HomeSession.OnTossUpdate | src/components/Results/Results.tsx:97 | the displayed tosses become the canvas's tosses and nothing else changes |
| Home.HexagramTextIsInterpreted | src/components/Home/Home.tsx:159-161 | once the interpretation has been requested, the hexagram text on screen is absent or is the text of the hexagram whose interpretation was requested |
| Home.HexagramTextShownIffCast | src/components/Home/Home.tsx:311-335 | in every session state the results section shows hexagram text exactly when a hexagram is stored |
| Results.CanvasTosses | src/components/Results/Results.tsx:89-91 | the canvas gets the tosses unchanged when there are any, otherwise six [2, 2, 2] triples; never empty |
| Results.Render | src/components/Results/Results.tsx:86-136 | canvas and manual input are exclusive and chosen by manual mode. The divider shows iff the canvas is showing and not manual. The toss panel shows iff displayed tosses exist, with exactly those tosses. The hexagram text shows iff tosses are complete and a hexagram is set |
| TossResults.Rows | src/components/TossResults/TossResults.tsx:13-35 | one row per toss in order, labelled index + 1, one icon per coin, text the coins' letters joined by ", " |
| TossResults.RowTextLayout | src/components/TossResults/TossResults.tsx:35 | the row text has 3n - 2 characters, the letter of coin k at 3k followed by ", " |
| TossResults.ReadRowText | src/components/TossResults/TossResults.tsx:35 | reading the row text back gives the face of every coin, in order |
| TossResults.IconMatchesLetter | src/components/TossResults/TossResults.tsx:19-35 | a coin's icon says "Heads" iff its letter is 'H' iff the coin is 3 |
| History.HistoryStore.constructor | src/app/api/history/route.ts:25-32 | the store starts with the given user table and no records |
| History.HistoryStore.Post | src/app/api/history/route.ts:6-44 | 401 without an email, then 400 for an invalid body, then 404 for an unknown user, in that order. Created exactly when all checks pass, with exactly one record appended (the user's id, the five fields, a fresh id). Every other answer leaves the store unchanged. The status is 401 exactly without an email and 200 exactly when created |
| History.HistoryStore.Get | src/app/api/history/route.ts:46-65 | 401 and 404 under the same checks; otherwise exactly the caller's records, newest first, store untouched. The status is 401 exactly without an email and 200 exactly for a signed-in, known user |
| History.FilterKeepsOwnRecords | src/app/api/history/route.ts:59-61 | the `where` filter keeps exactly the records of the user, in creation order |
| History.UserHistoryIsNewestFirstSelection | src/app/api/history/route.ts:59-62 | the listing holds exactly the user's records, sorted by creation time descending |
| Locale.HandleChange | src/components/Navbar/LanguageSelector.tsx:9-19 | the array-based rewrite returns the path the selector specifies, never the empty string |
| Locale.SwitchReplacesOnlyLocaleSegment | src/components/Navbar/LanguageSelector.tsx:15-17 | when segment 1 is a supported locale, the new path's segments are the old ones with only segment 1 replaced |
| Locale.SwitchOnRootedPath | src/components/Navbar/LanguageSelector.tsx:13-17 | on "/" + first + rest: a supported first segment is swapped. Otherwise the locale is put in front, and "/" gives "/" + locale |
| Locale.SwitchedLocaleIsCurrent | src/components/Navbar/LanguageSelector.tsx:7-17 | for a path starting with "/", the current locale of the rewritten path is the new locale |
| Locale.SwitchIdempotent | src/components/Navbar/LanguageSelector.tsx:13-17 | switching to the same supported locale twice gives the path of switching once |
| Locale.ResolveLocale | src/i18n/request.ts:17-19 | the requested locale if it is "en" or "pt", otherwise "en"; always supported |
| Locale.ResolveIdempotent | src/i18n/request.ts:17-19 | resolving an already resolved locale returns it unchanged |
| Locale.GetRequestConfig | src/i18n/request.ts:7-26 | the resolved locale is a key of the message map, and the messages are that locale's catalogue |
| Locale.MessagesCoverLocales | src/i18n/request.ts:7 | the message map's keys are exactly the supported locales |
| TranslationData.BuildEnglish | scripts/generate-translations.ts:193-247 | the ui texts are the 32 fixed English strings. Hexagrams are keyed by their number in ascending order, and each number maps to the last Wilhelm entry with it |
| TranslationData.AssignSpec | scripts/generate-translations.ts:233-234 | assigning an integer-keyed property keeps the keys ascending, sets that key and leaves every other key alone |
| TranslationData.EnglishWellFormed | scripts/generate-translations.ts:231-247 | the built record has ascending hexagram keys, and ascending line keys when the source data's are |
| TranslationFlatten.Flatten | scripts/generate-translations.ts:264-320 | the texts and the index map are those of the item list: ui entries first, then per hexagram name, symbolic, judgment text/comments, image text/comments, then text/comments per line |
| TranslationFlatten.EmitUi | scripts/generate-translations.ts:270-273 | the ui loop pushes one text per ui entry and maps its index to that key |
| TranslationFlatten.EmitHexagram | scripts/generate-translations.ts:276-320 | one hexagram's body appends exactly that hexagram's items to the texts and map |
| TranslationFlatten.OfEncodes | scripts/generate-translations.ts:265-320 | the map's keys are exactly 0..n-1 with n the number of texts, and entry i is the path of text i |
| TranslationFlatten.ItemsLayout | scripts/generate-translations.ts:270-320 | the first texts are the ui entries in order, with ui paths; every later text has a hexagram path |
| TranslationFlatten.UiItemsAt | scripts/generate-translations.ts:270-273 | ui item i is the ui value i with the ui key as its path |
| TranslationFlatten.HexItemsLength | scripts/generate-translations.ts:276-319 | each hexagram contributes 6 + 2 * (number of lines) texts |
| TranslationBatch.CleanIsTrimmed | scripts/generate-translations.ts:128-133 | every text the cleaning keeps is non-blank and trimmed |
| TranslationBatch.ChunkBounded | scripts/generate-translations.ts:120-133 | every cleaned chunk holds at most 50 texts, each non-blank and trimmed |
| TranslationBatch.TranslateBatch | scripts/generate-translations.ts:115-181 | the loop returns the in-order concatenation of the translations of the cleaned chunks [50j, 50j + 50). It skips chunks with nothing left and fails when any request fails |
| TranslationBatch.TranslateChunk | scripts/generate-translations.ts:125-170 | one pass of the loop body: a chunk with nothing left after cleaning changes nothing; otherwise its translations are appended, or the pass fails when the request fails |
| TranslationBatch.FailurePersists | scripts/generate-translations.ts:174-177 | once a request has failed, the whole call fails whatever the later chunks hold |
| TranslationBatch.ConcatCleaned | scripts/generate-translations.ts:124-133 | cleaning the list chunk by chunk and putting the chunks back together is cleaning the whole list |
| TranslationBatch.TranslatedLength | scripts/generate-translations.ts:124-170 | with a length-preserving translator, the result has one text per input that is not blank after trimming |
| TranslationBatch.Untranslated | scripts/generate-translations.ts:124-170 | with a translator that returns its input, the result is the non-blank inputs, trimmed, in order |
| TranslationBatch.CleanKeepsTrimmed | scripts/generate-translations.ts:128-133 | texts that are all trimmed and non-blank pass the cleaning unchanged |
| TranslationBatch.BlankShiftsLaterTexts | scripts/generate-translations.ts:128-138 | ["Home", " ", "About"] comes back as two texts, so "About" lands at index 1 |
| Strings.TrimEmptyIffWhitespace | scripts/generate-translations.ts:131 | `trim().length > 0` fails exactly for whitespace-only strings |
| Strings.TrimTrims | scripts/generate-translations.ts:133 | `trim` returns a trimmed string and leaves a trimmed string unchanged |
| TranslationRebuild.Apply | scripts/generate-translations.ts:341-383 | a ui mapping never changes the hexagrams and a hexagram mapping never changes the ui |
| TranslationRebuild.Rebuild | scripts/generate-translations.ts:331-384 | the loop applies the translations in index order, skipping indices with no mapping |
| TranslationRebuild.RebuildAppliesItems | scripts/generate-translations.ts:337-384 | rebuilding the first k texts of a flattened list applies its first k items, each to its own path |
| TranslationRebuild.HexItemApply | scripts/generate-translations.ts:346-357 | a hexagram path writes only the record of its own hexagram number, created empty first when missing |
| TranslationRebuild.NameFirst | scripts/generate-translations.ts:349-360 | the first write to a missing hexagram creates the empty record and sets its name |
| TranslationRebuild.SymbolicAt | scripts/generate-translations.ts:361-362 | a "symbolic" path sets that one field of the record |
| TranslationRebuild.JudgmentAt | scripts/generate-translations.ts:363-366 | a "judgment" path sets that one field of the judgment |
| TranslationRebuild.ImageAt | scripts/generate-translations.ts:367-370 | an "image" path sets that one field of the image |
| TranslationRebuild.LineStepAt | scripts/generate-translations.ts:371-381 | a "lines" path creates the line record when missing and sets that one field of it |
| TranslationRebuild.HexApply | scripts/generate-translations.ts:346-381 | rebuilding one hexagram's flattened items gives back that hexagram's English record |
| TranslationRebuild.LinesApply | scripts/generate-translations.ts:371-381 | rebuilding a hexagram's line items gives back its lines |
| TranslationRebuild.UiApply | scripts/generate-translations.ts:341-344 | rebuilding the ui items gives back the ui record |
| TranslationRebuild.ItemsRebuildEnglish | scripts/generate-translations.ts:264-384 | applying the flattened items of a well-formed English record to an empty file reproduces it |
| TranslationRebuild.RebuildInvertsFlatten | scripts/generate-translations.ts:264-384 | rebuilding from the untranslated flattened texts and map reproduces the English hexagrams and ui |
| Strings.ParseNatToString | scripts/generate-translations.ts:347 | `parseInt(String(n))` is n, so a hexagram number survives the path round trip |
| Strings.SplitJoin | scripts/generate-translations.ts:346 | splitting a join of separator-free pieces gives the pieces back |
| Strings.JoinSplit | src/components/Navbar/LanguageSelector.tsx:11-17 | joining a split with the same separator gives the string back |
| TranslationMain.TranslateLanguage | scripts/generate-translations.ts:263-384 | one language's file is flatten, batch-translate, rebuild; None when a request fails |
| TranslationMain.WriteFiles | scripts/generate-translations.ts:249-398 | writes the English file, then each language's file in order under its code, skipping failures; a later write replaces an earlier one |
| TranslationMain.GenerateTranslations | scripts/generate-translations.ts:183-401 | without a key the run exits; otherwise the files written are those of the English record built from the data and the per-language outcomes |
| TranslationMain.TargetLangCodes | scripts/generate-translations.ts:387 | the codes are pt, pt, es, fr, de, it, zh, ja, ko: the lower-cased tag before the first "-" |
| TranslationMain.EnglishFileKept | scripts/generate-translations.ts:387-393 | no language writes over the English file |
| TranslationMain.WrittenFiles | scripts/generate-translations.ts:260-398 | every file written is the English one or the file of a successful language with that code |
| TranslationMain.PortugueseFile | scripts/generate-translations.ts:387-393 | the pt file is PT-BR's when it succeeds, otherwise PT-PT's, and absent when both fail |
| TranslationMain.UntranslatedLanguageFile | scripts/generate-translations.ts:264-393 | with a translator that returns its input and texts already trimmed and non-blank, a language's file equals the English file |

## Left out

- The casting engine (`generateHexagram`, `getTrigrams`, `findHexagram`, `getTranslationKeysForHexagramNumber` from `@/utils/iching`) is not part of this model. These functions are parameters of `CastingEffect` and `HexagramText`.
- `Math.random` becomes a parameter `random: nat -> real`, drawn once per coin in loop order.
- `useAi`'s `getAiResponse` is recorded in a ghost log. Its `loading`, `error` and `result` and the next-auth session are parameters of `HistoryEffect`. The `fetch` POST is recorded in a ghost log.
- React scheduling is not modelled. Each effect is a method the caller may invoke at any point, and state updates take effect at once rather than batched per render. The locale-keyed remount is not modelled.
- `ManualTossInput` is not part of this model, and neither are the setters it receives: `setCoinTosses`, `setTossed`, `setDisplayedTosses`, `setIsShowingCanvas`, `setManualMode`, `setTossesComplete` and `handleReset`. It renders only when the results section is shown in manual mode. The page's own buttons never bring that about: manual mode is switched on only from the inputs section, and the toss button generates only outside manual mode. `SetManualMode` may be called in any state, so the model does not rule that combination out. The invariant tying `tossed`, `isShowingCanvas` and `showResults` together holds only for the handlers modelled.
- All markup and styling are left out: Hero, Intention, the 3D canvas, HexagramText SVG, buttons' labels and icons. So are SignInPopupButton and the middleware configuration.
- Prisma and next-auth become a user table, a record sequence and an optional session email. Ids come from a counter, and `createdAt` is a strictly increasing counter. A request body that is not JSON is not modelled.
- `interpretation` is stored as given, without a check, as in the route. JSON values are a small datatype: numbers are integers, and arrays are counted only by length.
- DeepL `fetch` is a parameter: the translator maps a cleaned chunk to its translations, or None for a failed request. The same goes for `translateText`, the one-second delay and console logging.
- `fs`/`path` writes become a map from directory code to file contents. `process.exit(1)` becomes the `Exited` outcome. The JSON layout and key order of the written files are not modelled.
- `Object.entries` on integer-keyed objects is modelled as an ascending association list. The Wilhelm data is modelled as a list of numbered entries.
- Strings.ParseInt: reads only a leading run of decimal digits. It does not model leading whitespace, a sign or other radixes, none of which occur in the paths built here.
- Strings.ToLower: lower-cases ASCII letters only, which covers the language tags.
- The filter's `text != null` and `typeof text === "string"` checks are not modelled, because every text is a string here. `String(text)` is the identity.
