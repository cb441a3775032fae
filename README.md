# Alash Arulary page logic in Dafny

Alash Arulary is a single-page bilingual (Kazakh / English) gallery of
Kazakh women of the Alash era. Its page (`src/app/page.tsx`) shows:

- a dashboard of biography cards, searchable across both languages;
- a map with one coloured marker per person who has coordinates, plus a
  searchable list of places;
- a rotating quote of the day;
- a biography dialog that a dashboard card, a place's Open button or a marker's info window opens.

This project models the logic under that markup and proves what it
promises. It covers:

- the language fallback `pick` and the display values built on it;
- the marker colour classifier `assignMarkerColor`;
- the `lifespan` label;
- the people search (`filtered`) and the place filters (`places`,
  `placesFiltered`);
- the quote rotation;
- the `useGoogleMaps` script-loader status machine;
- the marker rebuild and focus effects of `MapWithPlaces`.

Modules:

- `Wrappers`: `Option`, standing for TypeScript's optional / nullable values.
- `Text`: strings as the page uses them:
  - ECMAScript `trim`;
  - `toLowerCase`, given as a per-character map `fold`;
  - `join`, `includes`;
  - integer rendering, with its read-back.
- `Lists`: `Array.prototype.filter` and the order-preserving sub-list
  relation.
- `Locale`: `Lang`, `pick`, `lifespan`.
- `People`: the person record, the display values and the shipped table of ten records.
- `Colors`: the categories, their labels in both languages, and `assignMarkerColor`.
- `Search`: the `filtered`, `places` and `placesFiltered` memos.
- `Quotes`: the two five-item quote lists and the `(prev + 1) % length` step.
- `Page`: the page's own state as a class. Its setters stand for the
  `useState` setters:
  - language;
  - dashboard query;
  - open biography;
  - quote index.
- `MapsLoader`: the loader as a pure state machine (`Step`, `Run`) and as a
  class whose methods are proved to take exactly those steps.
- `MapView`: the map surface as a class. Map objects are tokens:
  - a marker is its position in the sequence of all markers ever created;
  - "attached" is a set of tokens;
  - the id-to-marker registry is a map;
  - viewport moves are recorded calls.

## Model

| member | source | states |
|---|---|---|
| Locale.Pick | src/app/page.tsx:340-342 | In English the English value when defined, otherwise the Kazakh one. In Kazakh always the Kazakh value, even when it is undefined and an English one exists. The result is defined iff the Kazakh value is, or the language is English and the English value is. |
| Locale.YearsWord | src/app/page.tsx:336 | The unit word is "years" in English and "жыл" in Kazakh. It is non-empty and holds no space and no minus sign, so the label can be split back. |
| Locale.Lifespan | src/app/page.tsx:333-338 | The label: the span of years, from the birth year to the death year or to the current year, rendered as an integer, then a space and the unit word of the language. Its properties are stated by `Locale.LifespanReadsBack`. |
| Locale.LifespanReadsBack | src/app/page.tsx:333-338 | The label is one integer, a single space, then "years" (English) or "жыл" (Kazakh). The integer reads back as the death year, or the current year when there is none, minus the birth year. |
| Locale.LifespanWithDeathYear | src/app/page.tsx:594 | Born 2000, died 2020, Kazakh: "20 жыл". |
| Locale.LifespanLiving | src/app/page.tsx:595 | A living person born five years before the current year, Kazakh: "5 жыл". |
| People.DisplayName | src/app/page.tsx:729 | Kazakh shows the Kazakh name. English shows the English name when present and non-empty, else the Kazakh name. |
| People.DisplayFields | src/app/page.tsx:730 | Kazakh shows the Kazakh labels. English shows the English labels when present, else the Kazakh ones; an empty array is not falsy, so there is no second fallback. |
| People.DisplayBio | src/app/page.tsx:847 | The biography falls back to the Kazakh text when the picked one is absent or empty. |
| People.DisplayEducation | src/app/page.tsx:829-837 | The education block appears only for a present, non-empty picked value. In Kazakh that is the Kazakh value. In English a present English value wins even when it is empty, which hides the block; with no English value the Kazakh value shows when present and non-empty. |
| People.ShippedCoordinatesValid | src/app/page.tsx:136-307 | Every shipped record has both coordinates, within latitude and longitude range. |
| People.ShippedIdsUnique | src/app/page.tsx:136-307 | Ids are pairwise distinct in the shipped table (`MapView.ShippedPlacesKeepAllMarkers` builds on this). |
| People.JournalismTagged | src/app/page.tsx:599-600 | Filtering the shipped table for the Kazakh or English journalism label gives a non-empty list. |
| Colors.AssignMarkerColor | src/app/page.tsx:344-351 | Total; always one of the six colours. Gray exactly when no category label in either language is present. |
| Colors.FirstTagged | src/app/page.tsx:344-351 | The first category in the given order that is tagged: a found category is tagged, sits in the order, and no category before it is tagged. None iff no category of the order is tagged. |
| Colors.AssignMarkerColorByPriority | src/app/page.tsx:344-351 | The colour is that of the first tagged category in the order Medicine, Education, Politics, Journalism, Geology, and gray when there is none. |
| Colors.ColorsDistinct | src/app/page.tsx:345-350 | The five category colours are pairwise distinct and none is the gray. |
| Colors.LabelsDistinct | src/app/page.tsx:345-350 | The ten category labels are pairwise distinct: each Kazakh and each English label names one category, and no Kazakh label is an English one. |
| Colors.LabelLanguageIrrelevant | src/app/page.tsx:344-351 | Adding a category's Kazakh label or its English label to any list gives the same colour. |
| Colors.TranslatedSameColor | src/app/page.tsx:344-351 | Replacing every Kazakh category label by its English counterpart leaves the colour unchanged. |
| Colors.SameTagsSameFirst | src/app/page.tsx:344-351 | Two label lists tagged with the same categories get the same first category, and so the same colour. |
| Text.Trim | src/app/page.tsx:570 | The result occurs in the input right after the leading white space. Everything after it is white space, and its ends are not. It is empty exactly when the input is all white space. |
| Text.TrimEnd | src/app/page.tsx:570 | The end of the kept part lies between the start and the given end. Only white space follows it, and the character before it, when there is one after the start, is not white. |
| Text.TrimUnchanged | src/app/page.tsx:570 | A string with non-white ends is its own trim. |
| Text.Lower | src/app/page.tsx:570 | Lowering keeps the length and maps each character by `fold`. |
| Text.Includes | src/app/page.tsx:575 | True exactly when the query occurs at some position. |
| Text.OccursInJoin | src/app/page.tsx:573-575 | An occurrence inside one part of a join is an occurrence in the joined text, at that part's offset. |
| Text.Join | src/app/page.tsx:573-574 | `join`: the parts in order with the separator between neighbours; its shape is stated by `Text.JoinLength` and `Text.JoinSeparator`. |
| Text.JoinLength | src/app/page.tsx:573-574 | An empty list joins to the empty string. Otherwise the join ends exactly with the last part, at that part's offset. |
| Text.JoinSeparator | src/app/page.tsx:573-574 | The separator sits right after every part but the last, at that part's offset plus its length. |
| Text.IntToString | src/app/page.tsx:337 | The rendering of a non-negative integer is its digits, and a negative one a minus sign before the digits of its magnitude; either way it is a digit string with at most a leading minus. |
| Text.IntToStringRoundTrip | src/app/page.tsx:337 | The decimal rendering of an integer (a minus sign before a negative one) reads back as the integer. |
| Lists.Filter | src/app/page.tsx:572 | The kept elements are an order-preserving sub-list. An element is kept iff it is in the input and passes the test, as often as it occurs there. |
| Lists.FilterIdempotent | src/app/page.tsx:572 | Filtering a filtered list with the same test changes nothing. |
| Lists.SublistTrans | src/app/page.tsx:396-406 | A sub-list of a sub-list is a sub-list. |
| Lists.SublistMembers | src/app/page.tsx:396-406 | Every element of a sub-list is an element of the list. |
| Lists.SublistKeepsDistinct | src/app/page.tsx:396-406 | A sub-list of a list with pairwise distinct keys has pairwise distinct keys. |
| Search.NormalizeQuery | src/app/page.tsx:570 | The normalized query is the lowered trim, and it is empty exactly when the raw query is all white space. |
| Search.NameAllBoth | src/app/page.tsx:573 | With both names present and non-empty, the joined names are the Kazakh name, one space, the English name. |
| Search.NameAll | src/app/page.tsx:573 | The present, non-empty names joined by one space, Kazakh first (see `Search.NameAllBoth`). |
| Search.FieldsAll | src/app/page.tsx:574 | The Kazakh labels then the English ones, joined by one space; empty labels are kept. |
| Search.CityText | src/app/page.tsx:402 | The city, or the empty string when there is none. |
| Search.PersonMatches | src/app/page.tsx:573-575 | The people search's test: the lowered joined names or the lowered joined labels contain the query. |
| Search.PlaceMatches | src/app/page.tsx:401-404 | The place search's test: the names, the city or the labels contain the query. |
| Search.FilterPeople | src/app/page.tsx:569-577 | A blank query returns the list unchanged. Otherwise the result is an order-preserving sub-list holding exactly the records whose lowered joined names or joined labels contain the query, each as often as in the input. |
| Search.FilterPeopleIdempotent | src/app/page.tsx:569-577 | Searching the result again with the same query gives the same result. |
| Search.VerbatimQueryFinds | src/app/page.tsx:569-577 | A query whose trim occurs verbatim in a record's joined names or labels finds that record, whatever the case map. |
| Search.LabelQueryFinds | src/app/page.tsx:574-575 | Searching for one of a record's labels, as written, finds the record. |
| Search.JournalismSearchNonEmpty | src/app/page.tsx:569-577 | Searching the shipped table for "Journalism" finds Gainizhamal Dosymbekova, so the result is non-empty. |
| Search.QuerySpansNames | src/app/page.tsx:573-575 | The end of the Kazakh name, a space and the start of the English name make a query that finds the record. The names are matched as one joined text. |
| Search.Places | src/app/page.tsx:396 | An order-preserving sub-list holding exactly the records with both coordinates, each as often as it occurs in the input. |
| Search.FilterPlaces | src/app/page.tsx:397-406 | A blank query returns the places unchanged. Otherwise it keeps, in order, exactly the places matching by names, city or labels, each as often as it occurs in the input. |
| Search.PlacesFilteredWithinPeople | src/app/page.tsx:396-406 | What the map shows is always a sub-list of the people given to it, and every shown record has both coordinates. |
| Quotes.QuotesFor | src/app/page.tsx:312-328 | Both language lists hold five quotes. |
| Quotes.NextIndex | src/app/page.tsx:581 | The step stays below the length. It moves to the next index, and wraps from the last index to the first. |
| Quotes.RotatedIsMod | src/app/page.tsx:581 | After n steps from the first quote the index is n modulo the length. |
| Quotes.QuoteIndexValidInBothLanguages | src/app/page.tsx:585 | An index valid for one language's quotes is valid for the other's. |
| Page.AppState.constructor | src/app/page.tsx:558-562 | Starts in Kazakh, with an empty query, no open biography and the first quote. |
| Page.AppState.SetLang | src/app/page.tsx:640-643 | Switching language keeps the query, the open biography and the quote index, and the index stays valid. |
| Page.AppState.SetQuery | src/app/page.tsx:723 | Only the query changes. |
| Page.AppState.OpenPerson | src/app/page.tsx:733 | The person's biography opens; nothing else changes. |
| Page.AppState.CloseDetail | src/app/page.tsx:785 | Dismissing the dialog clears the open biography; nothing else changes. |
| Page.AppState.Advance | src/app/page.tsx:581 | The shared quote step of the timer and the button: only the index changes, to the cyclic successor, and it stays valid. |
| Page.AppState.TickQuote | src/app/page.tsx:580-583 | The timer advances the index by the cyclic step and keeps it valid. |
| Page.AppState.NextQuote | src/app/page.tsx:776 | The button takes the same step as the timer. |
| Page.AppState.CurrentQuote | src/app/page.tsx:585 | The current quote is always one of the current language's quotes. |
| Page.AppState.IsDimmed | src/app/page.tsx:610 | The navigation is dimmed exactly while a biography is open. |
| Page.AppState.Filtered | src/app/page.tsx:569-577 | The dashboard's cards are a sub-list of the shipped table. |
| MapsLoader.Decide | src/app/page.tsx:356-376 | No key gives no-key. A present library gives ready. Otherwise loading, with listeners attached, and a script created exactly when none exists. |
| MapsLoader.Initial | src/app/page.tsx:355 | An instance starts idle with neither listener attached, in a document holding the given number of script tags. The script may already have fired, which is possible only when a script exists. |
| MapsLoader.InitialConsistent | src/app/page.tsx:355 | Every instance starts in a consistent state, whether or not the shared script has fired. |
| MapsLoader.Step | src/app/page.tsx:356-381 | The loader after one input: a run of the effect as `MapsLoader.Decide` says, a cleanup detaching both listeners, or a script event that acts only while the script can fire. |
| MapsLoader.Run | src/app/page.tsx:356-381 | The loader after a sequence of inputs, one step at a time. |
| MapsLoader.StepConsistent | src/app/page.tsx:356-381 | After any input: listeners are attached only with a script present; until the script fires, both listeners are attached or neither, and attached ones mean loading; an error status implies the script fired. |
| MapsLoader.RunConsistent | src/app/page.tsx:356-381 | That invariant holds after any sequence of inputs. |
| MapsLoader.AtMostOneScriptCreated | src/app/page.tsx:361-371 | No sequence of runs and events creates a second `data-gmaps` script. |
| MapsLoader.LoadingOutcomes | src/app/page.tsx:362-363 | From loading with both listeners attached and the script not yet fired, a load event gives ready and leaves the library present, and an error event gives error. `once` removes only the listener that fired; the other stays attached. |
| MapsLoader.OneEventPerScript | src/app/page.tsx:361-363 | After the script's load or error event, any further script events change nothing. |
| MapsLoader.LoadThenErrorStaysReady | src/app/page.tsx:361-363 | A run with a key, a load event and then an error event on a fresh script ends ready: the error event never fires. |
| MapsLoader.NoRetryAfterError | src/app/page.tsx:362-381 | In a consistent state, with no further run of the effect, no sequence of load, error or cleanup events leaves the error state. |
| MapsLoader.LoadingAfterFiredStays | src/app/page.tsx:361-375 | Once the script has fired, a loading instance stays loading under any sequence of script events and cleanups. |
| MapsLoader.LateMountAfterFailure | src/app/page.tsx:361-375 | A second map instance that mounts with a key after the shared script failed reuses the script and attaches both listeners. It then stays loading, never error, whatever events follow. |
| MapsLoader.ScriptLoader.constructor | src/app/page.tsx:355 | The class starts in the initial state for the given document, including a script that has already fired. |
| MapsLoader.ScriptLoader.Mount | src/app/page.tsx:356-376 | One run of the effect changes the fields exactly as the state machine's step does. |
| MapsLoader.ScriptLoader.Cleanup | src/app/page.tsx:377-380 | The cleanup detaches the listeners, as the step does. |
| MapsLoader.ScriptLoader.ScriptLoaded | src/app/page.tsx:362 | Takes exactly the step of a load event. It changes something only when a script exists that has not fired yet. Then ready is set only through an attached load listener, that listener is removed, the script has fired, and the library is present. |
| MapsLoader.ScriptLoader.ScriptFailed | src/app/page.tsx:363 | Takes exactly the step of an error event. It changes something only when a script exists that has not fired yet. Then error is set only through an attached error listener, that listener is removed, and the script has fired. |
| MapView.Tokens | src/app/page.tsx:432-448 | Exactly the tokens from the base up to, but excluding, the base plus the count. |
| MapView.NewMarkers | src/app/page.tsx:432-447 | One new marker per place. |
| MapView.NewMarkersAt | src/app/page.tsx:433-447 | The new marker at each position stands for the place at that position, and its colour is that place's marker colour. |
| MapView.RegistryFor | src/app/page.tsx:448 | The id-to-marker registry a rebuild leaves, filled in creation order so that a later id overwrites an earlier one; stated by `MapView.RegistryForKeys` and `MapView.RegistryForLast`. |
| MapView.RegistryForKeys | src/app/page.tsx:429-448 | After a rebuild the registry's keys are exactly the ids of the filtered places. |
| MapView.RegistryForLast | src/app/page.tsx:448 | Each id leads to the marker of the last place carrying it. |
| MapView.RegistryForUniqueValues | src/app/page.tsx:448 | With distinct ids every new marker stays registered. |
| MapView.RegistryPointsToPlaces | src/app/page.tsx:448 | Every registered id leads to a created marker that stands for a person with that id. |
| MapView.ShownPlacesUnique | src/app/page.tsx:396-406 | When the people's ids are distinct, so are the ids of the places the map shows for any query. |
| MapView.ShippedPlacesKeepAllMarkers | src/app/page.tsx:396-448 | For the shipped table and any query, the shown ids are distinct and a rebuild registers every new marker. |
| MapView.ViewportCalls | src/app/page.tsx:491-492 | More than one place fits the bounds of all new markers. Exactly one centres on it. None leaves the viewport alone. |
| MapView.DetachAll | src/app/page.tsx:428 | Every registered marker is detached and the others keep their state. |
| MapView.CreateMarkers | src/app/page.tsx:432-448 | The loop appends one marker per place, attaches each and rebuilds the registry from an empty one. |
| MapView.RebuildConsistent | src/app/page.tsx:427-448 | A rebuild keeps the map surface consistent: tokens refer to created markers and registered markers stand for their ids. |
| MapView.MapState.constructor | src/app/page.tsx:409-411 | No map, no markers, an empty registry and no info window. |
| MapView.MapState.Rebuild | src/app/page.tsx:413-493 | Nothing happens unless the script is ready and the container exists. Otherwise: the map exists; the old registered markers are detached; one attached marker is created per place; the registry is rebuilt; the viewport is fitted or centred by the count. With distinct ids, and every attached marker registered beforehand, the attached markers afterwards are exactly the registered ones. |
| MapView.MapState.Click | src/app/page.tsx:450-483 | A marker click opens the info window at that marker. |
| MapView.MapState.InfoPerson | src/app/page.tsx:486 | The info window's button opens the biography of the person its marker stands for. |
| MapView.MapState.SetFocus | src/app/page.tsx:496-504 | The effect fires only for a new, non-empty id with the library present. With a registered marker it clicks it, pans to it and zooms to 7. Otherwise nothing but the focused id changes. |

## Left out

- React rendering, JSX, class strings, framer-motion animation, and the UI wrappers in `src/components/ui`. They are presentation only.
- The `NavBtn` component beyond the dimming flag (`Page.AppState.IsDimmed`). Routes, the route buttons and the expanded-map dialog (`route`, `mapOpen`) are navigation with no logic of their own.
- The development-time assertions on `QUOTES_BY_LANG`, on the I18N labels and on the route (src/app/page.tsx:593, 596-597). They check constants, and the I18N table is not part of this model.
- The biography header's year range (src/app/page.tsx:796). Its conditional operator binds looser than `||`, so it never prints the death year. It is presentational and is not modelled.
- The `photo` and `works` fields of a person. They are never used in logic.
- `new Date().getFullYear()`: the current year is a parameter of `Locale.Lifespan`.
- `toLowerCase`: a per-character map `fold` given as a parameter. Nothing is claimed about Unicode case folding, including case mappings that change a string's length.
- Coordinates: `lat`/`lng` are reals that are only tested for presence. No floating-point reasoning, and no bounds geometry for `fitBounds`/`getCenter`.
- The Google Maps library:
  - `Map`, `Marker`, `InfoWindow`, `LatLngBounds`, `event.trigger` and the script download are abstract tokens and recorded calls;
  - the map's creation options, the marker icon other than its colour, the drop animation and the info-window HTML are not modelled;
  - the info-window button's `setTimeout` wiring is reduced to `MapView.MapState.InfoPerson`.
- `typeof window === "undefined"` (server rendering). The loader assumes a browser.
- The API key's value and the language parameter of the script URL. Only whether a key is present matters.
- MapsLoader.Decide: the second check of `window.google.maps` on the existing-script path is not repeated. Within one synchronous run it repeats a check that has just failed, so it can never succeed.
- MapsLoader.ScriptLoader.Mount: requires that neither listener is attached. React always runs the previous run's cleanup first.
- A script element fires at most one of its load and error events, once. An event with no script, or after the script has fired, is modelled as a no-op.
- A re-run of the loader effect after an error (new key or language) goes back to loading with listeners on the existing script. The model gives this through another `Mount` input; there is no retry without one (`MapsLoader.NoRetryAfterError`).
- MapView.MapState.Rebuild: the dependency list (`lang`, `onSelectPerson`) is not modelled. The caller decides when the effect runs.
- Concurrency and React's batching of state updates are not modelled. Each setter is one atomic step.
- Numbers: years and the quote index are unbounded integers. JavaScript numbers are doubles, so fractional years and the exponent notation that `${}` uses from 1e21 on are not modelled.
- Strings are sequences of Unicode scalar values. JavaScript strings are UTF-16 code units, so `trim`, `includes` and `toLowerCase` on text holding surrogate pairs are not modelled unit by unit.
