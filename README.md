# Animal voice sentiments: lookup routes and selection controllers

This project models the two pieces of logic in the Animal Voice Sentiments web
application, and proves properties about them.

- **The lookup service (`app.py`).** It holds one in-memory table of rows with
  the fields `animal`, `class`, `scientific_name`, `sound`, `emotion_label` and
  `context_trigger`. Each route is a pure query over that table. Criteria are
  equality filters, and each one applies only when it is non-empty. Some routes
  answer with the sorted, distinct values of a column. The others answer with
  data from the first matching row in table order.
- **The page script (`static/js/main.js`).** It has two event-driven
  controllers. `EmotionForm` is the class → animal → sound form, with its
  result lookup. `CallForForm` is the simpler animal → sound form. Each handler
  is a method of a class whose fields are:
  - the script's closure variables;
  - the `<select>` widgets, as option list, value and disabled flag;
  - the submit button's disabled flag;
  - the result panel.

  A network call is the `Request` value that a handler returns. Its reply, or
  its failure, is a later method call.

Files, in dependency order:

- `wrappers.dfy`: `Option`.
- `seqs.dfy`: the operations the routes are built from, with their contracts.
  These are filtering (`Where`), first match (`Find`), column projection
  (`Map`), dropping duplicates (`Dedup`), insertion sort by a key (`SortBy`),
  and Python's string order (`LexLe`, with totality, transitivity and
  antisymmetry lemmas).
- `text.dfy`: `str.strip()`, using exactly the characters for which Python's
  `str.isspace()` holds, and `str.casefold()` on ASCII letters.
- `protocol.dfy`: the JSON shapes and the requests the page sends.
- `animal_data.dfy`: the routes, and lemmas relating them to each other.
- `dom.dfy`: a `<select>` and the result panel as values. It fixes three DOM
  rules:
  - Replacing a select's `innerHTML` selects its first option.
  - Setting `value` to a value that no option has leaves no option selected,
    so the value reads as `""`.
  - `appendChild` leaves the selected option as it was.
- `controller.dfy`: the two controller classes, and two walkthroughs whose
  assertions follow a sequence of events.

Behaviour of the code that the model keeps:

- **The submit button can lag behind the form.** The button's disabled flag
  is recomputed after:
  - a class change;
  - a sound change;
  - a sounds reply or a sounds error;
  - clearing a name.

  It is not recomputed after a name change that starts a sounds request. That
  request resets the sound value to `""`, so the form can be invalid while the
  button is still enabled. `SubmitEnabledWhileSoundsLoad` reaches such a state from the page as
  rendered: class, animals, one animal, its sound, then the other animal.
  Submitting from it shows the inline error and sends nothing. So "submit is
  enabled exactly when the form is valid" is the postcondition only of the
  handlers that call `checkFormValidation`. It is not an invariant of the
  controller.
- **An empty class keeps the old name options.** After an empty class, a new
  class enables the name dropdowns before its animals arrive. Until the reply
  arrives, those dropdowns still show the options of the earlier class, while
  `currentAnimals` is `[]`. A name picked in that window finds no candidate,
  which is why the no-match branch of a name change is reachable.
- **`get_call_for` uses the first matching row.** The comment at `app.py:104`
  says "Prefer first non-empty context". The code takes the context of the
  *first matching row* and falls back to the "not found" text when that
  context is empty, because `dropna` removes nothing from a column of strings.
  The model follows the code.

## Model

| member | source | states |
|---|---|---|
| `AnimalData.Home` | app.py:43-54 | The class list and the animal list are each sorted, duplicate-free, and hold exactly the values of that column in the table. For an empty table, both are empty. |
| `AnimalData.GetSoundsLegacy` | app.py:56-63 | Sorted and duplicate-free. A sound is listed exactly when some row with exactly that animal name has it. An empty table gives `[]`. |
| `AnimalData.GetSounds` | app.py:65-85 | Sorted and duplicate-free. A sound is listed exactly when some row that passes every non-empty criterion among class, english and scientific name has it. An empty table gives `[]`. |
| `AnimalData.GetSoundsNarrowing` | app.py:76-85 | Adding or keeping criteria never adds a sound: the narrower query's sounds are a subset of the wider query's sounds. |
| `AnimalData.GetCallFor` | app.py:87-108 | An empty table gives "No data available". No row matching the given animal and sound gives "No information found for this combination". Otherwise the answer is the context of the first matching row in table order, or that fallback text when the context is empty. The answer is never empty. |
| `AnimalData.GetAnimalsByClass` | app.py:110-136 | The pairs are pairwise distinct and non-decreasing by english name. A pair is listed exactly when some row of exactly that class has it. A class that no row has gives `[]`. |
| `AnimalData.GetAnimalByName` | app.py:138-170 | An empty table or a blank name gives None. Otherwise the answer is the pair of the first row in table order that lies in the class filter, if one is given, and whose english or scientific name equals the stripped name, ignoring case. If no row does, the answer is None. |
| `AnimalData.GetResult` | app.py:172-202 | The answer is found exactly when some row passes every non-empty criterion among class, english name, scientific name and sound. It is the emotion label and context of the first such row in table order. |
| `AnimalData.ResultFoundIffSoundListed` | app.py:184-197 | For a non-empty sound, `get_result` finds a row exactly when that sound is among the ones `get_sounds` lists for the same class and names. |
| `AnimalData.ListedAnimalsHaveSounds` | app.py:116-127 | Every pair that `get_animals_by_class` lists has a non-empty sound list under `get_sounds` for that class and pair. |
| `AnimalData.ByNameIgnoresCase` | app.py:145-166 | Two names that differ only in the case of their letters give the same `get_animal_by_name` answer, in every table and class. |
| `AnimalData.Keeps` | app.py:77-82 | A row passes a query when it matches every criterion that is non-empty: class, english name, scientific name, and (for `get_result`) sound. An empty criterion keeps every row. |
| `AnimalData.Resolves` | app.py:152-160 | A row resolves a name when it lies in the class filter, if one is given, and its folded english or scientific name equals the folded name. |
| `AnimalData.ListedAnimalsResolve` | app.py:145-166 | A listed pair whose english name is non-blank and already stripped resolves by that name, within its class, under `get_animal_by_name`. |
| `Seqs.Where` | app.py:76-82 | Filtering keeps exactly the elements that pass (the `df[mask]` steps), and never lengthens the list. |
| `Seqs.WhereAppend` | app.py:76-82 | Filtering a concatenation is the concatenation of the filtered parts, so the kept rows stay in table order. |
| `Seqs.Find` | app.py:161-166 | The answer is None exactly when no element passes. Otherwise it is the element at the first passing position (`df[mask].iloc[0]`, and `Array.prototype.find` at main.js:46). |
| `Seqs.Dedup` | app.py:120-124 | The result has no duplicates and holds exactly the input's values (`unique()`, `drop_duplicates()`). |
| `Seqs.SortBy` | app.py:125 | The result is a permutation of the input that is non-decreasing by the key, and it keeps the input's distinctness (`sort_values`, `sorted`). |
| `Seqs.SortedUnique` | app.py:50-51 | `sorted(series.unique())`: sorted, duplicate-free, and holding exactly the input's values. |
| `Seqs.SortedDistinctIsStrict` | app.py:63 | A sorted, duplicate-free string list is strictly increasing in Python's string order. |
| `Seqs.SortedByPairwise` | app.py:125 | Non-decreasing neighbours give a non-decreasing order between any two positions. |
| `Text.Strip` | app.py:145 | The result is the middle of the input, with only whitespace cut from each side, and neither starts nor ends with whitespace. It is `""` exactly when the input is blank. |
| `Text.StripIdempotent` | app.py:145 | Stripping a stripped name changes nothing. |
| `Text.CaseFold` | app.py:156-160 | Each character becomes its folded form: an ASCII capital becomes its small letter, and every other character is kept. The length is unchanged and no ASCII capital remains. |
| `Text.CaseFoldAgrees` | app.py:156-160 | Two strings that differ only in the case of their letters fold to the same string. |
| `Text.StripAgrees` | app.py:145 | Two strings that differ only in case strip to strings that differ only in case. Case never decides what counts as whitespace. |
| `Text.CaseFoldIdempotent` | app.py:156-160 | Folding a folded string changes nothing. |
| `Controller.ListedNamesFindCandidates` | static/js/main.js:159-173 | A name taken from a dropdown rebuilt from the candidates always finds a candidate with that name (`find` at main.js:46 and main.js:61). |
| `Controller.FillNameDropdowns` | static/js/main.js:160-172 | Each dropdown ends as its placeholder followed by one option per candidate, in candidate order: the english name for one dropdown and the scientific name for the other. The selected value is `""` and the disabled flag is kept. |
| `Controller.EmotionForm.constructor` | static/js/main.js:1-15 | The widgets are as rendered and the closure state is empty. After the initial `checkFormValidation()` (main.js:298), submit is disabled. |
| `Controller.EmotionForm.IsFormValid` | static/js/main.js:264-269 | The form is valid when a class is chosen, at least one of the two selected names is non-empty, a sound is chosen, and the sound dropdown is enabled. |
| `Controller.EmotionForm.CheckFormValidation` | static/js/main.js:264-273 | Submit is disabled exactly when `isFormValid` fails. `isFormValid` requires a class, at least one selected name, a sound, and an enabled sound dropdown. |
| `Controller.EmotionForm.ShowResult` | static/js/main.js:275-279 | The panel gets the content and the class for its kind (`error`, `loading` or none), and becomes visible. |
| `Controller.EmotionForm.HideResult` | static/js/main.js:281-283 | Only the panel's visibility changes, to hidden. |
| `Controller.EmotionForm.EnableAnimalFields` | static/js/main.js:149-152 | Both name dropdowns become enabled and nothing else about them changes. |
| `Controller.EmotionForm.DisableAnimalFields` | static/js/main.js:154-157 | Both name dropdowns become disabled and nothing else about them changes. |
| `Controller.EmotionForm.PopulateAnimalDropdowns` | static/js/main.js:159-173 | Each name dropdown becomes its placeholder followed by that name of every candidate, in order. Each has length `\|currentAnimals\| + 1`, value `""`, and an unchanged disabled flag. |
| `Controller.EmotionForm.ResetAnimalFields` | static/js/main.js:175-180 | Both name values and both selected names become `""`. The option lists are kept. |
| `Controller.EmotionForm.ResetSoundsAndValidation` | static/js/main.js:182-187 | The sound dropdown holds only "Select animal first" and is disabled. The form is then invalid and submit is disabled. The result is hidden. |
| `Controller.EmotionForm.LoadSounds` | static/js/main.js:223-237 | When both names and the class are non-empty, the sound dropdown shows "Loading sounds..." and the request carries exactly those three values. Otherwise nothing changes and no request is sent. |
| `Controller.EmotionForm.ClassChanged` | static/js/main.js:17-40 | In both branches: both selected names and both name values are cleared, the sounds are reset and disabled, submit is disabled, and the result is hidden. A class enables both name dropdowns and requests that class's animals. An empty class disables them and empties `currentAnimals`. Neither branch rebuilds the name options. |
| `Controller.EmotionForm.OnAnimalsReply` | static/js/main.js:25-28 | `currentAnimals` becomes `data.animals`, or `[]` if absent. Both name dropdowns are rebuilt from it, each of length `\|currentAnimals\| + 1`. |
| `Controller.EmotionForm.OnAnimalsError` | static/js/main.js:29-32 | Shows "Error loading animals for this class." as an error. |
| `Controller.EmotionForm.EnglishChanged` | static/js/main.js:43-56 | A non-empty name is recorded. If a candidate has it, the first such candidate's pair becomes the selected pair, its scientific name is assigned to the scientific dropdown, and `loadSounds` runs. If none has it, nothing else changes. An empty value clears the english name and resets the sounds. |
| `Controller.EmotionForm.ScientificChanged` | static/js/main.js:58-71 | The mirror image of `EnglishChanged`, keyed by scientific name. |
| `Controller.EmotionForm.SoundChanged` | static/js/main.js:74-76 | The sound value is set, and submit is disabled exactly when the form is invalid. |
| `Controller.EmotionForm.OnSoundsReply` | static/js/main.js:239-254 | A non-empty list gives the placeholder followed by the sounds in order, enabled. An empty or absent list gives only "No sounds available", disabled. Either way no sound is chosen yet, and submit is disabled. |
| `Controller.EmotionForm.OnSoundsError` | static/js/main.js:255-260 | The sound dropdown holds only "Error loading sounds" and is disabled. Submit is disabled. |
| `Controller.EmotionForm.Submit` | static/js/main.js:79-100 | An invalid form shows "Please fill all required fields correctly." as an error and sends nothing. A valid form shows "Loading..." as loading and sends the class, `selectedEnglishName`, `selectedScientificName` and the sound. |
| `Controller.EmotionForm.OnResultReply` | static/js/main.js:101-141 | A result object gives the success card, built from the selection as it is when the reply arrives. No result gives "No information found for this combination." as an error. |
| `Controller.EmotionForm.OnResultError` | static/js/main.js:142-145 | Shows the generic error message as an error, in place of the loading message. |
| `Controller.CallForForm.constructor` | static/js/main.js:299-303 | The form's widgets and panel are as rendered. |
| `Controller.CallForForm.ShowResult` | static/js/main.js:405-410 | The panel gets the content and the class for its kind, and becomes visible. |
| `Controller.CallForForm.AnimalChanged` | static/js/main.js:306-353 | An animal disables the sound dropdown behind "Loading sounds..." and requests that animal's sounds. No animal disables it behind "Select an animal first". The result is hidden in both cases. |
| `Controller.CallForForm.OnSoundsReply` | static/js/main.js:322-339 | A non-empty list gives "-- Select a Sound --" followed by the sounds, enabled. Otherwise it gives "No sounds available", disabled. |
| `Controller.CallForForm.OnSoundsError` | static/js/main.js:340-344 | The sound dropdown holds only "Error loading sounds" and is disabled. |
| `Controller.CallForForm.Submit` | static/js/main.js:356-384 | Without both an animal and a sound, it shows an error and sends nothing. Otherwise it shows "Loading..." and sends the animal and the sound. |
| `Controller.CallForForm.OnCallForReply` | static/js/main.js:391-398 | A non-empty `call_for` gives the success card for the animal and sound captured at submit time. Otherwise it shows the not-found message. |
| `Controller.CallForForm.OnCallForError` | static/js/main.js:399-402 | Shows the "please try again" error message. |

## Left out

- Loading and normalising the CSV file (`load_data`) is file I/O and pandas behaviour. The table is given as rows of strings that are already stripped. Because the columns are strings, `dropna` removes nothing and is not modelled.
- Flask routing, `jsonify`, `request.get_json`, `render_template`, `/health` and `app.run` are framework plumbing. A JSON criterion that is absent, null or `""` is passed to the model as `""`. Non-string JSON values are not modelled.
- `Text.CaseFold`: folds ASCII letters only. Python's full Unicode case folding (for example `ß` → `ss`) is not modelled.
- `AnimalData.GetAnimalsByClass`: promises only non-decreasing english-name order, like `sort_values('animal')`. That sort is not stable. The model's insertion sort fixes one order among pairs that share an english name, and the contract leaves that order open.
- `fetch`, promise scheduling, `response.ok`, `response.json()` and `console.error` are not modelled. A reply is a separate event method. A failed request, an error status and a body that is not JSON are all the corresponding `...Error` event.
- Stale replies are not modelled. Requests cannot be cancelled, so the order in which late replies arrive is a concurrency matter. The model makes no claim about it.
- Result-card HTML and CSS styling are not modelled. The panel keeps a content tag with its data, a class name and a visibility flag.
- `validateAnimalName` (main.js:189-221) is dead code. It refers to undefined inputs, and nothing calls it, so the page never calls `/get_animal_by_name`. That route is modelled on the server side only.
- `debounce` (main.js:285-295) is dead code built on timers.
- The page template is not part of this model. The initial widgets are constructor parameters.
- A change event's value is passed as a method parameter, with no requirement that it is one of the select's options.
- Both listeners look up `sound-select` and `result-display` by the same ids. The model treats the two forms as separate objects, with no shared widgets.
- `data.result && typeof data.result === 'object'` is modelled as a present or absent `EmotionResult`. Other JSON objects, such as arrays, are not distinguished.

