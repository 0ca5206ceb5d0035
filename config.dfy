/**
 * The configuration store of core/config.py. The settings file is a field of
 * `SettingsStore`: `Some(m)` when it holds a JSON object of strings, `None` when
 * it is missing or does not parse. `save_config` overwrites it, `load_config`
 * lays it over the defaults.
 */
module Config {
  import opened Wrappers
  import opened Numbers

  type Settings = map<string, string>

  /** The keys of `DEFAULT_CONFIG`, which are also the keys `save_config` writes. */
  const ConfigKeys: set<string> := {
    "models_dir", "bin_base", "ngl", "port", "prompt", "temp", "top_k", "top_p",
    "repeat_penalty", "threads", "ctx_size", "max_tokens", "language", "theme"
  }

  /** `int(os.cpu_count() / 2 or 4)`: half the CPUs rounded down, 4 only when the half is 0.0. */
  function DefaultThreads(cpuCount: nat): (t: nat)
    ensures cpuCount == 0 ==> t == 4
    ensures cpuCount > 0 ==> 2 * t <= cpuCount < 2 * t + 2
  {
    if cpuCount == 0 then 4 else cpuCount / 2
  }

  /** `DEFAULT_CONFIG`, which depends on the CPU count of the machine. */
  function DefaultConfig(cpuCount: nat): (d: Settings)
    ensures d.Keys == ConfigKeys
  {
    map[
      "models_dir" := "",
      "bin_base" := "",
      "ngl" := "40",
      "port" := "8080",
      "prompt" := "",
      "temp" := "0.8",
      "top_k" := "40",
      "top_p" := "0.9",
      "repeat_penalty" := "1.1",
      "threads" := NatToString(DefaultThreads(cpuCount)),
      "ctx_size" := "4096",
      "max_tokens" := "512",
      "language" := "en",
      "theme" := "system"
    ]
  }

  /** The record `save_config` serialises: the fourteen keys, each bound to its argument. */
  function SavedRecord(
    modelsDir: string, binBase: string, ngl: string, port: string, prompt: string,
    temp: string, topK: string, topP: string, repeatPenalty: string, threads: string,
    ctxSize: string, maxTokens: string, language: string, theme: string): Settings
  {
    map[
      "models_dir" := modelsDir,
      "bin_base" := binBase,
      "ngl" := ngl,
      "port" := port,
      "prompt" := prompt,
      "temp" := temp,
      "top_k" := topK,
      "top_p" := topP,
      "repeat_penalty" := repeatPenalty,
      "threads" := threads,
      "ctx_size" := ctxSize,
      "max_tokens" := maxTokens,
      "language" := language,
      "theme" := theme
    ]
  }

  /** The saved record and the defaults have the same fourteen keys. */
  lemma SavedRecordKeys(
    modelsDir: string, binBase: string, ngl: string, port: string, prompt: string,
    temp: string, topK: string, topP: string, repeatPenalty: string, threads: string,
    ctxSize: string, maxTokens: string, language: string, theme: string)
    ensures SavedRecord(modelsDir, binBase, ngl, port, prompt, temp, topK, topP,
                        repeatPenalty, threads, ctxSize, maxTokens, language, theme).Keys == ConfigKeys
  {
  }

  /**
   * How the write ends: written in full; `open` failed, leaving the old file;
   * or `json.dump` failed after mode "w" had truncated it, leaving text that
   * does not parse.
   */
  datatype WriteOutcome = Written | OpenFailed | DumpFailed

  function AfterSave(file: Option<Settings>, rec: Settings, outcome: WriteOutcome): Option<Settings>
  {
    match outcome
    case Written => Some(rec)
    case OpenFailed => file
    case DumpFailed => None
  }

  /** `load_config`: a copy of the defaults, updated with whatever map the file holds. */
  function LoadedConfig(defaults: Settings, file: Option<Settings>): Settings
  {
    match file
    case None => defaults
    case Some(user) => defaults + user
  }

  class SettingsStore {
    /** The settings file, as last left by a save or by the environment. */
    var file: Option<Settings>
    /** `os.cpu_count()` at import time. */
    const cpuCount: nat

    constructor (file: Option<Settings>, cpuCount: nat)
      ensures this.file == file && this.cpuCount == cpuCount
    {
      this.file := file;
      this.cpuCount := cpuCount;
    }

    /** `save_config(...)`; errors are logged and swallowed, so nothing is returned. */
    method Save(
      outcome: WriteOutcome,
      modelsDir: string, binBase: string, ngl: string, port: string, prompt: string,
      temp: string, topK: string, topP: string, repeatPenalty: string, threads: string,
      ctxSize: string, maxTokens: string, language: string := "es", theme: string := "system")
      modifies this`file
      ensures file == AfterSave(old(file), SavedRecord(modelsDir, binBase, ngl, port, prompt,
                                  temp, topK, topP, repeatPenalty, threads, ctxSize,
                                  maxTokens, language, theme), outcome)
    {
      var config := SavedRecord(modelsDir, binBase, ngl, port, prompt, temp, topK, topP,
                                repeatPenalty, threads, ctxSize, maxTokens, language, theme);
      match outcome {
        case Written => file := Some(config);
        case OpenFailed =>
        case DumpFailed => file := None;
      }
    }

    /** `load_config()`: never fails; every default key is present and the file's values win. */
    method Load() returns (config: Settings)
      ensures config == LoadedConfig(DefaultConfig(cpuCount), file)
      ensures ConfigKeys <= config.Keys
      ensures file.Some? ==> forall k :: k in file.value ==> k in config && config[k] == file.value[k]
      ensures forall k :: k in ConfigKeys && (file.None? || k !in file.value) ==>
                config[k] == DefaultConfig(cpuCount)[k]
    {
      config := DefaultConfig(cpuCount);
      if file.Some? {
        config := config + file.value;
      }
    }
  }

  /** Every key of `DEFAULT_CONFIG` is in the loaded configuration. */
  lemma LoadedHasDefaultKeys(cpuCount: nat, file: Option<Settings>)
    ensures ConfigKeys <= LoadedConfig(DefaultConfig(cpuCount), file).Keys
  {
  }

  /** A value present in the file wins, unknown keys included. */
  lemma FileValueWins(cpuCount: nat, user: Settings, k: string)
    requires k in user
    ensures LoadedConfig(DefaultConfig(cpuCount), Some(user))[k] == user[k]
  {
  }

  /** A file lacking `max_tokens` loads with the default `"512"`. */
  lemma MissingKeyDefaults(cpuCount: nat, user: Settings)
    requires "max_tokens" !in user
    ensures LoadedConfig(DefaultConfig(cpuCount), Some(user))["max_tokens"] == "512"
  {
  }

  /** A missing or unparsable file loads as `DEFAULT_CONFIG` exactly. */
  lemma NoFileDefaults(cpuCount: nat)
    ensures LoadedConfig(DefaultConfig(cpuCount), None) == DefaultConfig(cpuCount)
  {
  }

  /**
   * Round trip: after a save that was written in full, a load returns exactly the
   * saved record, since that record binds every default key.
   */
  lemma SaveLoadRoundTrip(
    cpuCount: nat, file: Option<Settings>,
    modelsDir: string, binBase: string, ngl: string, port: string, prompt: string,
    temp: string, topK: string, topP: string, repeatPenalty: string, threads: string,
    ctxSize: string, maxTokens: string, language: string, theme: string)
    ensures var rec := SavedRecord(modelsDir, binBase, ngl, port, prompt, temp, topK, topP,
                                   repeatPenalty, threads, ctxSize, maxTokens, language, theme);
            LoadedConfig(DefaultConfig(cpuCount), AfterSave(file, rec, Written)) == rec
  {
    var rec := SavedRecord(modelsDir, binBase, ngl, port, prompt, temp, topK, topP,
                           repeatPenalty, threads, ctxSize, maxTokens, language, theme);
    var loaded := DefaultConfig(cpuCount) + rec;
    SavedRecordKeys(modelsDir, binBase, ngl, port, prompt, temp, topK, topP,
                    repeatPenalty, threads, ctxSize, maxTokens, language, theme);
    assert loaded.Keys == rec.Keys;
    assert forall k :: k in loaded ==> loaded[k] == rec[k];
  }

  /** A save whose `open` failed leaves what a load returns as it was. */
  lemma FailedOpenKeepsConfig(cpuCount: nat, file: Option<Settings>, rec: Settings)
    ensures LoadedConfig(DefaultConfig(cpuCount), AfterSave(file, rec, OpenFailed))
         == LoadedConfig(DefaultConfig(cpuCount), file)
  {
  }

  /** The default thread count: 4 CPUs give "2", one CPU gives "0", none gives "4". */
  lemma DefaultThreadsExamples()
    ensures DefaultConfig(4)["threads"] == "2"
    ensures DefaultConfig(1)["threads"] == "0"
    ensures DefaultConfig(0)["threads"] == "4"
  {
  }

  /**
   * `save_config`'s own defaults for the last two arguments are "es" and "system",
   * although `DEFAULT_CONFIG` says "en".
   */
  lemma SaveDefaultLanguageDiffers(
    cpuCount: nat, modelsDir: string, binBase: string, ngl: string, port: string, prompt: string,
    temp: string, topK: string, topP: string, repeatPenalty: string, threads: string,
    ctxSize: string, maxTokens: string)
    ensures var rec := SavedRecord(modelsDir, binBase, ngl, port, prompt, temp, topK, topP,
                                   repeatPenalty, threads, ctxSize, maxTokens, "es", "system");
            rec["language"] == "es" && rec["theme"] == "system" &&
            rec["language"] != DefaultConfig(cpuCount)["language"]
  {
  }
}
