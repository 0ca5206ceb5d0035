# LLaMA-Server-GUI launcher core in Dafny

This project models the decision logic of the LLaMA-Server-GUI launcher and proves
properties of it. The launcher is a GTK front end that starts and stops a local
`llama-server` process. The following parts are modelled:

- **Model discovery** (`find_models`): glob the `*.gguf` entries of a directory, then sort.
- **Settings file** (`DEFAULT_CONFIG`, `save_config`, `load_config`): defaults overlaid by
  the saved JSON record.
- **Localisation** (`LANGUAGES`, `set_language`, `get_current_language`, `get_text`, the
  translation table).
- **Process probe and kill** (`check_server_running`, `kill_server`).
- **Main window**: the port probe, the `llama-server` command line, the start/stop flow
  and its state (`server_running`, `process`, the locked form, the start button, the
  browser link), the GTK theme list, the conversion of legacy theme names, and the
  dark-theme test.

Modules:

- `Wrappers`, `Strings`, `Numbers`, `Ordering` and `Paths` give the Python behaviour the
  code relies on:
  - `int()` parsing and `str()` of integers;
  - `in` on strings, `" ".join`, ASCII `lower`, `replace` and `strip`;
  - code-point order and `list.sort`;
  - `os.path.join` and the directory part of glob results.
- `ModelLocator` models core/utils.py.
- `Config` models core/config.py. The settings file is the `file` field of the
  `SettingsStore` class.
- `I18n` models core/i18n.py. The module globals are fields of the `Localization` class.
- `LlamaServer` models core/llama_server.py.
  - The live process table is a snapshot.
  - Every psutil or signal step of `kill_server` is an outcome given as input.
- `MainWindow` models the server-control parts of gui/main_window.py.
  - The `MainWindow` class holds the window state that `start_server` and `stop_server`
    change.
  - The answer to the modal dialog, the kill outcomes, the write outcome and the spawn
    outcome are inputs.
- `Themes` models the theme scan, the theme migration and the dark-theme test of
  gui/main_window.py.

Some behaviours of the code are easy to misread as bugs; the model keeps them as written:

- For one CPU the default thread count is `"0"`, not half the cores or 4. `int(1 / 2 or 4)`
  is `int(0.5)`.
- `check_server_running(80)` reports a server started with `--port 8080`. The port test
  is a substring test on the joined command line, not a comparison of arguments.
- The prompt entry is saved but is never passed to `llama-server`.
- Settings are saved before the spawn, with language `"es"` and theme `"system"`, so a
  failed spawn still overwrites the settings file.
- There is no range check on any numeric entry and no truncation of the prompt; only the
  port and ngl entries go through `int()`.

## Model

| member | source | states |
|---|---|---|
| ModelLocator.MatchingPaths | core/utils.py:7 | a path is produced iff it is the glob directory joined with a listed name ending in `.gguf` without a leading dot; no more paths than names |
| ModelLocator.FindModels | core/utils.py:6-10 | the result is sorted, is a permutation of the matching paths (so one result per matching entry: none lost, none added), and is empty for a missing directory |
| ModelLocator.FindModelsMembers | core/utils.py:7-8 | membership in the result iff some listed `.gguf` name joins to that path |
| ModelLocator.ModelPathIsJoin | core/utils.py:7 | for a directory without a trailing slash the path is `dir + "/" + name` |
| ModelLocator.FindModelsExample | core/utils.py:6-10 | `b.gguf`, `a.gguf`, `c.txt` give exactly `["dir/a.gguf", "dir/b.gguf"]` |
| ModelLocator.HiddenModelSkipped | core/utils.py:7 | a dot-file with the `.gguf` extension is not returned |
| ModelLocator.NoModels | core/utils.py:7 | an empty or missing directory gives `[]` |
| Ordering.SortStrings | core/utils.py:8 | the result is in ascending code-point order and a permutation of the input |
| Ordering.SortedPermutationUnique | core/utils.py:8 | two sorted permutations of the same list are equal, so the sorted order is unique |
| Ordering.SortKeepsMembers | gui/main_window.py:183 | sorting keeps exactly the same members and keeps a duplicate-free list duplicate-free |
| Ordering.LexLeTrans | core/utils.py:8 | the string order is transitive (also total, reflexive and antisymmetric by its sibling lemmas) |
| Paths.PathJoin | core/utils.py:7 | `os.path.join(a, b)` always ends with `b` |
| Paths.GlobDir | core/utils.py:7 | a directory without a trailing slash is reported unchanged |
| Config.DefaultConfig | core/config.py:9-24 | the defaults bind exactly the fourteen keys that `save_config` writes |
| Config.DefaultThreads | core/config.py:19 | 4 when there are no CPUs, otherwise half the CPU count rounded down (so 0 for one CPU) |
| Config.DefaultThreadsExamples | core/config.py:19 | example: 4 CPUs give `"2"`, 1 CPU gives `"0"`, 0 CPUs give `"4"` |
| Config.SavedRecordKeys | core/config.py:27-42 | the saved record has exactly the fourteen default keys |
| Config.SettingsStore.Save | core/config.py:26-48 | the file becomes the record on a full write, stays as it was when `open` fails, and no longer parses when the dump fails after truncation |
| Config.SettingsStore.Load | core/config.py:50-62 | every default key is present; every key of the file, unknown ones included, has the file's value; an absent key has its default |
| Config.LoadedHasDefaultKeys | core/config.py:51-56 | whatever the file holds, a load has every default key |
| Config.FileValueWins | core/config.py:56 | a key present in the file takes the file's value |
| Config.MissingKeyDefaults | core/config.py:21 | a file without `max_tokens` loads `"512"` |
| Config.NoFileDefaults | core/config.py:51-62 | a missing or unparsable file loads exactly the defaults |
| Config.SaveLoadRoundTrip | core/config.py:26-56 | after a full write a load returns exactly the record written |
| Config.FailedOpenKeepsConfig | core/config.py:44-48 | a save whose `open` fails changes nothing a load returns |
| Config.SaveDefaultLanguageDiffers | core/config.py:26 | example: omitted language and theme are saved as `"es"` and `"system"`, and `"es"` differs from the default `"en"` |
| I18n.ChosenLanguage | core/i18n.py:48 | a non-empty explicit language wins; `None` or `""` falls back to the current language |
| I18n.Translate | core/i18n.py:55-58 | the key itself when the key or the language entry is missing, else `translations[key][lang]` |
| I18n.LanguageAfterSnoc | core/i18n.py:61-77 | a further `set_language` call acts on the language left by the earlier calls |
| I18n.CurrentIsLastAccepted | core/i18n.py:61-77 | after any sequence of calls the current language is the last accepted one, or `"en"`, and always in `LANGUAGES` |
| I18n.Localization.constructor | core/i18n.py:16-19 | starts with `"en"` and the table loaded at import |
| I18n.Localization.LoadTranslations | core/i18n.py:22-35 | the table becomes the file's table, or empty when the file is missing or fails to load |
| I18n.Localization.GetText | core/i18n.py:38-58 | an empty table is reloaded first; the text is the translation of the key in the chosen language |
| I18n.Localization.SetLanguage | core/i18n.py:61-77 | returns true iff the language is in `LANGUAGES`, sets it exactly then, and keeps the invariant |
| I18n.Localization.GetCurrentLanguage | core/i18n.py:80-86 | returns the current language, which is in `LANGUAGES` |
| LlamaServer.IsServerFor | core/llama_server.py:13-14 | a process passes only if it is readable and has a non-empty command line: one named `llama-server` with an empty command line never passes, since `--port P` must occur in the joined command line |
| LlamaServer.FirstServer | core/llama_server.py:11-20 | `None` exactly when no process of the snapshot passes the test |
| LlamaServer.FirstServerIsFirstMatch | core/llama_server.py:9-20 | `None` iff no process passes both tests; otherwise the pid of the earliest process that passes |
| LlamaServer.InaccessibleSkipped | core/llama_server.py:17-18 | an unreadable process is skipped and the scan goes on |
| LlamaServer.CheckServerRunning | core/llama_server.py:9-20 | the scan returns exactly the first-match pid |
| LlamaServer.PortPrefixAlsoMatches | core/llama_server.py:14 | a server started with `--port 8080` is reported for 8080 and also for 80 |
| LlamaServer.OtherPortNotMatched | core/llama_server.py:14 | that server is not reported for 9090 |
| LlamaServer.KillServer | core/llama_server.py:22-48 | true iff terminate+wait, terminate+kill after the timeout, or the SIGKILL fallback succeeds; `kill` only after a timeout; SIGKILL only once the psutil path failed, and then last |
| MainWindow.ProbePort | gui/main_window.py:390 | an empty port entry means 8080; the probe raises exactly when `int()` rejects a non-empty entry; every decimal port text reads back as that port |
| Numbers.ParseInt | gui/main_window.py:465 | a blank text raises; a text `int()` accepts holds only whitespace, digits, underscores and signs |
| Numbers.IntToString | core/llama_server.py:14 | `str(n)` is non-empty, starts with a minus sign exactly when `n` is negative, and is digits otherwise |
| Numbers.ParseIntToString | gui/main_window.py:465 | `int(str(n)) == n` for every integer |
| Numbers.ParseIntLenient | gui/main_window.py:390 | `int()` accepts surrounding whitespace, a sign and leading zeros |
| Numbers.ParseIntUnderscore | gui/main_window.py:390 | `int()` accepts single underscores between digits |
| Numbers.ParseIntRejects | gui/main_window.py:465 | `int()` rejects `""`, inner spaces and doubled underscores |
| MainWindow.Command | gui/main_window.py:495-511 | 26 arguments, the first being the program path ending in `llama-server` |
| MainWindow.CommandOptions | gui/main_window.py:495-511 | an argument reader recovers exactly the eleven value flags, each paired with its own setting, whatever the settings' texts; the last three arguments are the switches `--mlock`, `--cont-batching`, `--flash-attn` |
| MainWindow.CommandIgnoresPrompt | gui/main_window.py:468 | the prompt entry does not affect the command |
| MainWindow.CommandDetectable | gui/main_window.py:495-511 | a server launched with a decimal port text is found by the probe on that port, whatever name it reports |
| MainWindow.EmptyPortLaunch | gui/main_window.py:467-499 | an empty port entry probes 8080 but launches with an empty `--port` value |
| MainWindow.StartResult | gui/main_window.py:426-533 | the port entry raises exactly when it is not a number; a cancel means the user declined; a failed stop means the user agreed and `kill_server` failed; a start needs a numeric ngl and a successful spawn |
| MainWindow.StartResultCases | gui/main_window.py:426-533 | it starts iff it saved and the spawn succeeded; it saves iff it starts or the spawn fails; an unresolved conflict ends it before saving; a kill needs consent |
| MainWindow.ResolveConflict | gui/main_window.py:426-459 | it goes on iff no server with a non-zero pid is on the port, or the user agreed and the kill succeeded; the kill targets that server's pid |
| MainWindow.PortPrefixBlocksStart | gui/main_window.py:426-459 | a server on 8080 cancels a start on port 80 unless the user agrees to kill it |
| MainWindow.KilledThenNglRejected | gui/main_window.py:452-465 | the old server is killed before the ngl entry is read, so a bad ngl entry leaves no server and saves nothing |
| MainWindow.ZeroPidIgnored | gui/main_window.py:428 | a server reported with pid 0 is no conflict |
| MainWindow.MainWindow.constructor | gui/main_window.py:17-18 | no server, no process, an editable form, the start label, and the link `http://localhost:8080` set at line 254 |
| MainWindow.MainWindow.StartServer | gui/main_window.py:384-581 | the outcome follows the checks in order; the file is saved exactly when they pass; on success the process holds the command and the link uses the raw port text; otherwise the server state is unchanged |
| MainWindow.MainWindow.Launch | gui/main_window.py:463-576 | ngl is parsed, the settings are saved with language `"es"` and theme `"system"`, then the spawn sets process, running flag and locked form together |
| MainWindow.MainWindow.Spawn | gui/main_window.py:522-574 | after a successful spawn the process holds the command, the server runs, the form is locked and the link uses the raw port text |
| MainWindow.MainWindow.StopServer | gui/main_window.py:583-656 | returns true; a kept process is killed whatever the kill reports, then forgotten; the server is then stopped and the form unlocked |
| MainWindow.MainWindow.OnStartButtonClicked | gui/main_window.py:342-353 | starts when stopped and stops when running; the button label always matches the running state; a start runs the server iff `start_server` succeeds, saves the file as `start_server` does, keeps the spawned command as the process and sets the link by outcome; a stop clears the process, leaves the file and the link URL alone and disables a shown link |
| Themes.AvailableThemes | gui/main_window.py:163-189 | the list is sorted and duplicate-free; a name is in it iff some directory has a theme of that name with `gtk-3.0` or `gtk-4.0`; an unlistable directory gives the fallback list |
| Themes.FallbackSortedDistinct | gui/main_window.py:187 | the fallback list is itself sorted and duplicate-free |
| Themes.SystemThemeName | gui/main_window.py:206 | an unset or empty system theme reads as `"Adwaita"` |
| Themes.MigrateTheme | gui/main_window.py:209-225 | `"system"` becomes the system theme; other names pass through; `"light"` takes the installed, non-empty light variant of a dark system theme and stays `"light"` otherwise; `"dark"` takes the first installed dark variant, else `"Adwaita-dark"` if installed, else the system theme |
| Themes.LightVariantOfOtherSpelling | gui/main_window.py:213 | only `"dark"` and `"Dark"` are removed, so a system theme dark in another spelling is its own light variant |
| Themes.IsDarkTheme | gui/main_window.py:860 | a name is dark iff its lower-cased form contains `dark`; the test's second half adds nothing |
| Themes.UpperDarkIsLowerDark | gui/main_window.py:860 | a name containing `Dark` contains `dark` once lower-cased |
| Strings.Contains | core/llama_server.py:13-14 | `sub in s` needs `sub` no longer than `s`, and holds whenever `s` starts with `sub` |
| Strings.JoinWith | core/llama_server.py:13 | `" ".join` of no parts is `""`; otherwise the result starts with the first part |
| Strings.Lower | gui/main_window.py:212 | same length; each character is its ASCII lower-case form |
| Strings.Replace | gui/main_window.py:213 | with a replacement no longer than the pattern, the result is no longer than the text |
| Strings.Strip | gui/main_window.py:213 | the result is no longer, neither starts nor ends with whitespace, and is empty only for an all-whitespace text |

## Left out

- GTK widgets, layout, CSS, dialogs and status texts are left out. Only the state the
  server handlers read or set is modelled. gui/dialogs.py, gui/model_selector.py and
  gtk_llama_gui.py are not part of this model.
- `subprocess.Popen` and the output reader thread (`GLib.idle_add`) are left out. They
  are OS calls and concurrency, so the spawn is an outcome given as input.
- `run_server` (core/llama_server.py:50-57) is a shell call and is not part of this model.
- psutil, signals and `os.kill` are given by a process-table snapshot and one outcome per
  step. The 2-second wait is not modelled as time.
- File and JSON I/O are left out. The settings file and the translation file are
  optional maps, and a file that does not parse is `None`.
  - Write atomicity is not modelled.
  - Settings values are strings, so ngl, which the code saves as a JSON number, is stored
    as its decimal text.
  - A translation file with non-dictionary values is not modelled.
- The nested main-loop wait for the modal dialog is reduced to a yes/no input.
- Browser launching through `xdg-open` is left out.
- `get_selected_model_path` is not part of this model. The model path is an opaque input.
- `os.cpu_count()` returning `None` is not modelled. The CPU count is a natural number.
- Glob metacharacters inside the models directory are not modelled. The directory is
  treated as literal text.
- `int()`, `lower()` and `strip()` are ASCII only. Unicode digits, whitespace and case
  folding are not modelled.
- `save_current_config` and the language and theme menu handlers are left out. They are
  outside the start/stop flow.
- Applying a theme to GTK settings is left out. Only the dark-theme test of `apply_theme`
  is modelled.
- MainWindow.MainWindow.StartServer: a port text `int()` rejects is modelled as the
  outcome `PortNotANumber`, with no state changed. In the code the `ValueError` escapes
  to the GTK signal handler.
- MainWindow.MainWindow.Launch: the final `set_sensitive(True)` of the browser link is not
  repeated, because the link was already enabled before the `try`.
