/** Settings lookup with an optional fallback. The parsed configuration file
    is a map from section names to maps from option names to their text. */
module Config {
  import opened Wrappers
  import opened Text
  import opened Values
  import opened Exceptions

  type ConfigStore = map<string, map<string, string>>

  /** What `get` hands back: the `NOT_SET` sentinel object itself, or a value. */
  datatype Setting = NotSetSentinel | Given(value: Value)

  /** `_config[section][key]`: a missing section or a missing option raises KeyError. */
  function Lookup(config: ConfigStore, section: string, key: string): (r: Result<string, Error>)
    ensures r.Ok? <==> section in config && key in config[section]
    ensures r.Ok? ==> r.value == config[section][key]
    ensures r.Err? ==> IsKeyError(r.error)
  {
    if section !in config then Err(KeyError(section))
    else if key !in config[section] then Err(KeyError(key))
    else Ok(config[section][key])
  }

  function MissingMessage(key: string): string {
    "`" + key + "` missing, and no fallback provided."
  }

  /** `get(section, key, fallback=NOT_SET, fallback_required=True)`. A stored
      option wins over any fallback. When the option is missing, the call fails
      exactly when no fallback was given and one is required; otherwise the
      fallback comes back, the sentinel included. */
  function Get(config: ConfigStore, section: string, key: string, fallback: Setting, fallbackRequired: bool): (r: Result<Setting, Error>)
    ensures section in config && key in config[section] ==> r == Ok(Given(Str(config[section][key])))
    ensures r.Err? <==> !(section in config && key in config[section]) && fallback == NotSetSentinel && fallbackRequired
    ensures r.Err? ==> r.error == ConfigKeyMissing(MissingMessage(key)) && IsKeyError(r.error)
    ensures !(section in config && key in config[section]) && !(fallback == NotSetSentinel && fallbackRequired) ==>
      r == Ok(fallback)
  {
    match Lookup(config, section, key)
    case Ok(stored) => Ok(Given(Str(stored)))
    case Err(e) =>
      if fallback == NotSetSentinel && fallbackRequired then Err(ConfigKeyMissing(MissingMessage(key)))
      else Ok(fallback)
  }

  /** The error message names the missing option. */
  lemma MissingMessageNamesKey(key: string)
    ensures Contains(MissingMessage(key), key)
  {
    ContainsInfix("`", key, "` missing, and no fallback provided.");
  }

  /** A missing section answers exactly as a present section without the option. */
  lemma MissingSectionLikeMissingKey(config: ConfigStore, section: string, options: map<string, string>,
                                     key: string, fallback: Setting, fallbackRequired: bool)
    requires section !in config && key !in options
    ensures Get(config, section, key, fallback, fallbackRequired)
         == Get(config[section := options], section, key, fallback, fallbackRequired)
  {
  }

  /** Other options of the same section do not affect a lookup. */
  lemma LookupIsLocal(config: ConfigStore, section: string, key: string, other: string, value: string,
                      fallback: Setting, fallbackRequired: bool)
    requires other != key && section in config
    ensures Get(config[section := config[section][other := value]], section, key, fallback, fallbackRequired)
         == Get(config, section, key, fallback, fallbackRequired)
  {
  }

  /** Other sections, whatever they hold, do not affect a lookup. */
  lemma OtherSectionsIrrelevant(config: ConfigStore, section: string, key: string, otherSection: string,
                                options: map<string, string>, fallback: Setting, fallbackRequired: bool)
    requires otherSection != section
    ensures Get(config[otherSection := options], section, key, fallback, fallbackRequired)
         == Get(config, section, key, fallback, fallbackRequired)
  {
  }
}
