# create-uix-app, modelled in Dafny

`create-uix-app` scaffolds a new UIx project. It takes a project name and an
optional `--re-frame` flag, downloads an archive of the `uix-starter` template,
unpacks it into a directory named after the project, renames the package in
`package.json`, personalises `README.md` and runs `yarn install`.

This project models the deterministic part of that run as pure Dafny
functions, with lemmas about them:

- **Template selection and help gate** (`template.dfy`): `--re-frame` picks the
  re-frame archive, its absence the master archive; a missing or empty project
  name (JavaScript falsiness) shows the help instead of running.
- **Manifest personalisation** (`manifest.dfy`): the parsed `package.json` is a
  map from keys to JSON values, and its `name` is overwritten with the project
  name exactly as given.
- **README personalisation** (`readme.dfy`): the first `uix-starter` is replaced
  by the project name, the text is split into lines, every line starting with
  `Template project` is dropped, and the lines are joined again.
- **JavaScript string built-ins** (`jsstring.dfy`): `startsWith`, `indexOf`,
  `replace` with a string pattern, and `split`/`join` on `"\n"`, with
  JavaScript's semantics: `replace` changes only the first occurrence and
  expands `$$`, `$&`, `` $` `` and `$'` in the replacement; `split` of `n`
  separators gives `n + 1` pieces, so `""` gives `[""]`.
- **One run** (`scaffold.dfy`): lines 20-77 composed, with the download and
  unpacking abstracted as a function from the archive URL to the unpacked
  `package.json` and `README.md`.

The README step replaces only the first `uix-starter`: JavaScript's
`String.prototype.replace` with a string pattern does not replace globally, so
later mentions stay.

A project name is inserted into the README through JavaScript's replacement
patterns, so a name containing `$&`, `$$`, `` $` `` or `$'` is expanded there
(the manifest gets the name literally). The model keeps this and proves that a
name without `$` is inserted literally (`JsString.SubstitutionLiteral`,
`Readme.PersonalizeLiteral`).

## Model

| member | source | states |
|---|---|---|
| `Template.DownloadUrl` | src/index.js:23-28 | the URL is the re-frame archive exactly when `--re-frame` is set, and the master archive exactly when it is not |
| `Template.Resolve` | src/index.js:20-32 | the run shows help exactly when the project name is undefined or empty; otherwise it runs with that name and the URL the flag selects |
| `Template.Truthy` | src/index.js:30 | JavaScript truthiness of the name; its meaning (undefined or `""` is falsy) is stated by `Template.Resolve` |
| `Template.ResolveUrlIgnoresName` | src/index.js:28-32 | the archive chosen depends only on the flag, and the run keeps the name given |
| `Manifest.SetName` | src/index.js:59 | `name` equals the project name exactly; the keys are the old keys plus `name`; every other field is unchanged |
| `Manifest.SetNameAlreadyNamed` | src/index.js:59 | a manifest already carrying the project name is unchanged |
| `Manifest.SetNameSize` | src/index.js:59 | the manifest grows by one field only when `name` was missing |
| `JsString.StartsWith` | src/index.js:75 | `startsWith`; its use is stated by `Readme.KeepLines` and `Readme.NoTemplateLineLeft` |
| `JsString.IndexFrom` | src/index.js:73 | the found position is an occurrence at or after the start with none between; `None` means no occurrence from the start on |
| `JsString.IndexOf` | src/index.js:73 | found exactly when the pattern occurs; the position found is the first occurrence |
| `JsString.Substitution` | src/index.js:73 | the `$`-pattern expansion of the replacement; its meaning is stated by `JsString.SubstitutionLiteral` and `JsString.SubstitutionMatched` |
| `JsString.SubstitutionLiteral` | src/index.js:73 | a replacement without `$` is inserted exactly as given |
| `JsString.SubstitutionMatched` | src/index.js:73 | the replacement `$&` inserts the matched text |
| `JsString.ReplaceFirst` | src/index.js:73 | without an occurrence the text is unchanged; otherwise the text before the first occurrence and everything after it are kept, and only that occurrence is substituted |
| `JsString.FirstOccurrenceUnique` | src/index.js:73 | the first occurrence is unique, so the replaced position is determined |
| `JsString.ReplaceFirstLiteral` | src/index.js:73 | with a `$`-free name the result is prefix + name + suffix around the first occurrence, later occurrences included in the suffix |
| `JsString.PrefixBeforeFirstOccurrence` | src/index.js:73 | the text before the replaced occurrence contains no occurrence of the pattern |
| `JsString.Split` | src/index.js:74 | `n` separators give `n + 1` pieces, none containing the separator |
| `JsString.Join` | src/index.js:76 | joining with `"\n"`; `JsString.JoinSplit` and `JsString.SplitJoin` state it is the inverse of `JsString.Split` |
| `JsString.JoinSplit` | src/index.js:74-76 | joining the pieces of a split restores the text |
| `JsString.SplitPrefix` | src/index.js:74 | a separator-free prefix becomes the start of the first piece |
| `JsString.SplitJoin` | src/index.js:74-76 | splitting joined separator-free pieces restores the pieces |
| `Readme.KeepLines` | src/index.js:75 | the kept lines are exactly the input lines not starting with `Template project` |
| `Readme.KeepLinesSubMultiset` | src/index.js:75 | the kept lines, counted with multiplicity, are contained in the input: no line is duplicated |
| `Readme.KeepLinesSingle` | src/index.js:75 | a single line is kept exactly when it does not start with `Template project` |
| `Readme.KeepLinesAppend` | src/index.js:75 | the filter distributes over concatenation, so relative order is kept |
| `Readme.KeepLinesNone` | src/index.js:75 | without template lines the filter keeps every line |
| `Readme.StripTemplateLines` | src/index.js:74-76 | split, filter, join; its meaning is stated by `Readme.StripTemplateLinesLines`, `Readme.NoTemplateLineLeft`, `Readme.StripWithoutTemplateLines` and `Readme.StripIdempotent` |
| `Readme.StripTemplateLinesLines` | src/index.js:74-76 | the output's lines are the input's non-template lines in order (the single empty line when none survive) |
| `Readme.NoTemplateLineLeft` | src/index.js:74-76 | no output line starts with `Template project` |
| `Readme.StripWithoutTemplateLines` | src/index.js:74-76 | a text without template lines is unchanged |
| `Readme.StripIdempotent` | src/index.js:74-76 | stripping template lines twice equals stripping once |
| `Readme.Personalize` | src/index.js:72-76 | replace, then strip; its meaning is stated by `Readme.PersonalizeNoTemplateLine`, `Readme.PersonalizeLiteral` and `Readme.PersonalizeWithoutTemplateName` |
| `Readme.PersonalizeNoTemplateLine` | src/index.js:72-76 | the personalised README has no line starting with `Template project` |
| `Readme.PersonalizeLiteral` | src/index.js:72-76 | with a `$`-free name the README is the original with its first `uix-starter` replaced by the name, then stripped |
| `Readme.PersonalizeWithoutTemplateName` | src/index.js:73-76 | a README without `uix-starter` is only stripped |
| `Readme.PersonalizeDollarAmpersand` | src/index.js:73 | a project named `$&` leaves `uix-starter` in the README |
| `Scaffold.Create` | src/index.js:20-77 | help exactly for a falsy name; otherwise the project directory is the name, the URL is the re-frame archive exactly with the flag and the master archive exactly without it, and the files are the archive's, personalised |
| `Scaffold.CreatedManifest` | src/index.js:56-59 | after a run the manifest's `name` is the project name and every other field of the template manifest is kept |
| `Scaffold.CreatedReadme` | src/index.js:66-77 | after a run no README line starts with `Template project` |

## Left out

- Command-line parsing, help and version output by `commander` (src/index.js:11-18, 31): a library; its result is the `(projectName, reFrame)` input. Commander's own rejection of a missing required argument is not modelled; the `!projectName` gate is modelled over an optional string.
- The HTTP download with `axios` and the streaming response (src/index.js:36-39): network I/O; abstracted as the `archive` function of `Scaffold.Create`.
- Unpacking with `tar-pack` and its promise plumbing (src/index.js:40-54): filesystem and stream I/O; a failed download or unpack, which ends the run with an error, is not modelled.
- Reading and writing files, `JSON.parse`, `JSON.stringify` and `prettier.format` (src/index.js:56-71): I/O and foreign formatting; the manifest is a map and the README a string.
- Manifest.SetName: a map has no key order, so where `JSON.stringify` places `name` is not modelled; a `package.json` whose top level is not an object is not modelled.
- `yarn install` through `exec` and the console output (src/index.js:78-88): a subprocess and logging.
- JsString.Split: only a one-character separator, the only one the script uses.
- Strings are sequences of characters; JavaScript's UTF-16 code units and surrogate pairs are not distinguished.
