# Settings core of the Strava sync plugin, in Dafny

This project models the settings core of an Obsidian plugin. The plugin syncs
Strava activities into notes. The model covers three parts.

- **Schema and defaults** (`settings_schema.dfy`, module `SettingsSchema`). It
  has the `Settings` record with its authentication, sync-location and activity
  parts, the built-in `DefaultSettings`, and the fixed sixteen-name
  front-matter allow-list. A `Field` enumeration with a `Get` accessor names
  every leaf field, so "nothing else changes" can be stated per field.
- **Front-matter filter** (`front_matter.dfy`, module `FrontMatter`). It models
  the front-matter text area. The user's text is split on `,` and every piece
  is trimmed. A piece is kept when it is on the allow-list and is the first
  occurrence of its trimmed value. The stored list is shown back joined with
  `,`. The JavaScript built-ins this relies on are modelled in `text.dfy`
  (module `Text`): `split` with one separator character, `trim` and `join`.
  `worked_example.dfy` (modules `ExampleText` and `WorkedExample`) carries a
  worked example text through split, trim and filter.
- **Edit handlers** (`settings_tab.dfy`, module `SettingsTab`). Each input
  handler of the settings tab is a pure function from the old settings to the
  new ones. Each handler overwrites exactly one field. The template handler
  stores the built-in template when the value is empty, and the reset button
  stores it too. `Edit`, `Apply` and `ApplyAll` describe one interaction and a
  run of them; `Handler` dispatches an interaction to its handler.

The main proved properties are these.

- The filter always returns a duplicate-free list drawn from the allow-list.
- That list is *exactly* the allow-listed candidates in first-occurrence order,
  and any list meeting that description equals it.
- Submitting the displayed text unchanged stores the same list (round trip),
  and filtering twice gives the same result as filtering once.
- Each handler changes only its own field.
- Edits to different fields commute, and repeating an edit changes nothing.
- No run of edits from the defaults breaks the invariant on the front-matter
  list.

Three behaviours of the handlers are easy to get wrong.

- The template falls back to the built-in template only when the typed value
  is the empty string (`value ? value : default`). A whitespace-only template
  is stored verbatim.
- The two naming patterns and the three date formats have no fallback at all,
  so an empty value is stored as typed.
- Nothing in the code ensures the stored template is non-empty when it is
  read, so the model does not claim that. `TemplateEditNeverStoresEmpty` only
  shows that an edit never stores the empty string unless the built-in
  template is itself empty.

## Model

| member | source | states |
|---|---|---|
| SettingsSchema.AllowListShape | src/Settings.ts:3-20 | the allow-list has exactly 16 pairwise distinct entries, none empty, none containing `,`, none with whitespace at either end |
| SettingsSchema.DefaultSettingsShape | src/Settings.ts:22-41 | defaults: empty client id and secret; the three token fields absent; folder `Strava/{{start_date}}`, filename `{{id}} {{name}}`, both naming date formats `yyyy-MM-dd`; content date format `yyyy-MM-dd HH:mm:ss`; no front-matter properties; the built-in template. The defaults satisfy the settings invariant |
| SettingsSchema.FieldsDetermineSettings | src/Settings.ts:43-68 | the twelve leaf fields cover the whole settings record: two settings values that agree on every field are equal |
| Text.Trim | src/SettingsTab.ts:147 | `trim` returns a string no longer than its input with no whitespace at either end |
| Text.TrimKeepsMiddle | src/SettingsTab.ts:147 | what `trim` keeps is a contiguous middle of the input, and what it cuts from both ends is whitespace |
| Text.TrimStartCutsWhitespace | src/SettingsTab.ts:147 | the leading-whitespace step of `trim` keeps a suffix of its input and everything it removes is whitespace |
| Text.TrimEndCutsWhitespace | src/SettingsTab.ts:147 | the trailing-whitespace step of `trim` keeps a prefix of its input and everything it removes is whitespace |
| Text.TrimOneSpace | src/SettingsTab.ts:147 | a single space in front of a non-empty word with no whitespace at its ends is exactly what `trim` removes |
| Text.TrimKeepsAbsent | src/SettingsTab.ts:147 | trimming never introduces a character the string did not hold; in particular a piece without `,` stays without `,` |
| Text.TrimIsIdentityIffTrimmed | src/SettingsTab.ts:147 | trimming leaves a string unchanged if and only if neither end is whitespace |
| Text.Split | src/SettingsTab.ts:146 | `split(',')` returns at least one piece (so `""` gives one empty piece), and no piece contains the separator |
| Text.SplitFrom | src/SettingsTab.ts:146 | a string splits at its first separator: the text before it is the first piece and the rest is the split of what follows |
| Text.JoinLayout | src/SettingsTab.ts:143 | `join(',')` (modelled by `Text.Join`) starts with the first element and ends with the last; when no element holds the separator the text holds exactly one separator fewer than there are elements |
| Text.JoinSplit | src/SettingsTab.ts:143-146 | joining the pieces of a split with the same separator gives back the original text |
| Text.SplitJoin | src/SettingsTab.ts:143-146 | splitting the join of a non-empty, separator-free list gives back the list |
| FrontMatter.IndexOf | src/SettingsTab.ts:148 | `indexOf` returns -1 exactly when the value is absent, and otherwise the position of its first occurrence |
| FrontMatter.TrimAll | src/SettingsTab.ts:147 | `map(v => v.trim())` keeps the length and trims each element in place |
| FrontMatter.Candidates | src/SettingsTab.ts:146-147 | the split-and-trim yields at least one candidate, and every candidate has no whitespace at its ends and no `,` |
| FrontMatter.KeptAt | src/SettingsTab.ts:148 | the filter callback keeps the element at `i` exactly when it is on the allow-list and does not occur earlier in the array |
| FrontMatter.FilterPrefix | src/SettingsTab.ts:148 | the filter run over the first `n` candidates keeps exactly the allow-listed values among them, in first-occurrence order |
| FrontMatter.KeptStep | src/SettingsTab.ts:148 | when the filter keeps the element at position `n-1`, the allow-listed values among the first `n` elements are the earlier ones plus that element |
| FrontMatter.SkippedStep | src/SettingsTab.ts:148 | when the filter drops the element at position `n-1`, the allow-listed values among the first `n` elements are those among the first `n-1` |
| FrontMatter.KeepFirstAllowed | src/SettingsTab.ts:148 | the filter over the whole candidate array returns a duplicate-free, allow-listed list that holds exactly the allow-listed candidates, in first-occurrence order |
| FrontMatter.Filter | src/SettingsTab.ts:145-148 | the handler's split, trim and filter never fails. It yields a duplicate-free list drawn from the allow-list that holds exactly the allow-listed trimmed pieces, in the order of their first occurrence |
| FrontMatter.FirstOccurrenceOrderIsUnique | src/SettingsTab.ts:148 | two lists with the same elements, both in first-occurrence order of the same array, are equal |
| FrontMatter.FilterIsCharacterized | src/SettingsTab.ts:145-148 | any list holding exactly the allow-listed candidates, in first-occurrence order, is the filter's result |
| WorkedExample.FilterExample | src/SettingsTab.ts:145-148 | `"id, name, id, bogus, distance"` is stored as `["id", "name", "distance"]` |
| FrontMatter.FilterOfNothingAllowed | src/SettingsTab.ts:146-148 | text whose trimmed pieces are all off the allow-list stores the empty list |
| FrontMatter.FilterOfEmptyText | src/SettingsTab.ts:146-148 | the empty text stores the empty list |
| FrontMatter.Display | src/SettingsTab.ts:143 | the text shown for a non-empty property list (its comma-join) splits and trims back into exactly that list |
| FrontMatter.JoinedCandidates | src/SettingsTab.ts:143-147 | splitting and trimming the comma-join of a non-empty property list gives the list back |
| FrontMatter.FilterDisplayRoundTrip | src/SettingsTab.ts:143-148 | filtering the comma-join of any duplicate-free allow-listed list returns that list |
| FrontMatter.FilterIdempotent | src/SettingsTab.ts:143-148 | filtering the displayed form of a filter result gives the same result |
| SettingsTab.SetClientId | src/SettingsTab.ts:27 | the client id becomes the typed value; every other field is unchanged |
| SettingsTab.SetClientSecret | src/SettingsTab.ts:38 | the client secret becomes the typed value; every other field is unchanged |
| SettingsTab.SetFolder | src/SettingsTab.ts:62 | the folder pattern becomes the typed value; every other field is unchanged |
| SettingsTab.SetFolderDateFormat | src/SettingsTab.ts:85 | the folder date format becomes the typed value; every other field is unchanged |
| SettingsTab.SetFilename | src/SettingsTab.ts:100 | the filename pattern becomes the typed value; every other field is unchanged |
| SettingsTab.SetFilenameDateFormat | src/SettingsTab.ts:124 | the filename date format becomes the typed value; every other field is unchanged |
| SettingsTab.SetFrontMatter | src/SettingsTab.ts:144-148 | the front-matter list becomes the filtered text, every other field is unchanged, and the result is well formed whatever the previous list was |
| SettingsTab.SetContentDateFormat | src/SettingsTab.ts:174 | the content date format becomes the typed value; every other field is unchanged |
| SettingsTab.SetTemplate | src/SettingsTab.ts:202-205 | a non-empty value, whitespace-only included, is stored verbatim; the empty value stores the default template; every other field is unchanged |
| SettingsTab.ResetTemplate | src/SettingsTab.ts:191-192 | the template becomes the default template; every other field is unchanged |
| SettingsTab.ResetIsEmptyTemplateEdit | src/SettingsTab.ts:191-205 | pressing reset gives the same settings as submitting an empty template |
| SettingsTab.TemplateEditNeverStoresEmpty | src/SettingsTab.ts:203-205 | after a template edit the stored template is empty only if the built-in template is empty |
| SettingsTab.HandlerWritesOnlyTarget | src/SettingsTab.ts:26-206 | the handler of every interaction writes its own field with a value that does not depend on the current settings, leaves every other field unchanged, and keeps the settings well formed |
| SettingsTab.Apply | src/SettingsTab.ts:26-206 | one interaction writes the field it targets with the value it stores, changes no other field, and keeps the settings well formed |
| SettingsTab.ApplyAllKeepsWellFormed | src/SettingsTab.ts:26-206 | no sequence of interactions breaks the invariant on the front-matter list |
| SettingsTab.ReachableIsWellFormed | src/Settings.ts:22-41 | every settings value reachable from the defaults by interactions is well formed |
| SettingsTab.GetAfterTwo | src/SettingsTab.ts:26-206 | after two interactions a field holds the later interaction's value if it wrote that field, else the earlier one's, else its old value |
| SettingsTab.EditsOfDifferentFieldsCommute | src/SettingsTab.ts:26-206 | two interactions on different fields give the same settings in either order |
| SettingsTab.EditIsIdempotent | src/SettingsTab.ts:26-206 | repeating an interaction changes nothing further |
| SettingsTab.FrontMatterText | src/SettingsTab.ts:143 | the text the editor shows for well-formed settings filters back to the stored front-matter list |
| SettingsTab.ResubmitShownFrontMatter | src/SettingsTab.ts:143-148 | submitting the front-matter text as displayed leaves well-formed settings unchanged |

## Left out

- Obsidian UI plumbing is not modelled: the setting widgets, placeholders, rows and columns, notices, documentation links and re-rendering. It is widget wiring with no logic.
- `saveSettings()` is not modelled. It is asynchronous persistence implemented outside these files, so an edit is modelled as the state change alone.
- The OAuth flow behind the "Authenticate" button is not modelled. It is a network collaborator outside these files. The token fields are only carried through unchanged.
- The built-in template's text is not modelled. It is defined by the activity renderer, which is not part of this model, so `DefaultTemplate` is an uninterpreted constant and nothing is assumed about it.
- Placeholder substitution and date formatting for folder names, filenames and content are not modelled. No code for them is in the modelled files; they only store the pattern and format strings.
- Merging persisted settings over the defaults at load time is not modelled. No merge code is in the modelled files.
- The model assumes the live settings share no sub-object with `DEFAULT_SETTINGS`. `SetTemplate` and `ResetTemplate` read the built-in template from an immutable `DefaultSettings`, while the source assigns `this.plugin.settings.activity.template` in place (src/SettingsTab.ts:192, 203-205). If the settings loader, which is not part of this model, left `settings.activity` as the very object `DEFAULT_SETTINGS.activity`, a template edit would also overwrite the default, and reset would then restore the last typed template rather than the built-in one.
- The token expiry field is a JavaScript `number`. It is modelled as an optional integer of epoch seconds, and non-integral values are not represented.
- Text.Trim: the whitespace set is ECMAScript's WhiteSpace and LineTerminator characters, with the space-separator category taken as of current Unicode. Strings are sequences of Unicode scalar values, so lone UTF-16 surrogates are not represented.
