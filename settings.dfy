/** The generator's configuration and how it is loaded. */
module Settings {

  /** The parsed configuration file: the nginx output root, the
      acme-redirect request directory, and the public host name to
      backend address table (the source's field `map`). */
  datatype Config = Config(home: string, acmeRedirectConfigs: string, mapping: map<string, string>)

  /** Where the configuration is looked for when no argument is given. */
  const DefaultConfigPath: string := "/etc/web-distributor.toml"

  const DefaultHome: string := "/etc/web-distributor"
  const DefaultAcmeRedirectConfigs: string := "/etc/acme-redirect.d"

  /** What reading the configuration file gave: its content already parsed,
      content that does not parse, no file, or another read failure. */
  datatype ReadOutcome = Found(config: Config) | Unparsable | Missing | Unreadable

  /** A loaded configuration, with whether it was the default that is also
      written back to the configuration path; or a panic. */
  datatype Load = Loaded(config: Config, writesDefault: bool) | Failed

  /** `read_config`: a missing file yields the default configuration (and
      asks for it to be written back); a file that parses yields its
      content; anything else panics. */
  function ReadConfig(read: ReadOutcome): (r: Load)
    ensures r.Loaded? <==> read.Found? || read.Missing?
    ensures read.Found? ==> r == Loaded(read.config, false)
    ensures read.Missing? ==> && r.Loaded? && r.writesDefault
                              && r.config.home == "/etc/web-distributor"
                              && r.config.acmeRedirectConfigs == "/etc/acme-redirect.d"
                              && r.config.mapping == map[]
  {
    match read
    case Found(c) => Loaded(c, false)
    case Missing => Loaded(Config(DefaultHome, DefaultAcmeRedirectConfigs, map[]), true)
    case Unparsable => Failed
    case Unreadable => Failed
  }

  /** A first run writes the default back; reading that file on the next run
      gives the same configuration and writes nothing. */
  lemma SecondLoadIsStable()
    ensures var first := ReadConfig(Missing);
            first.Loaded? && ReadConfig(Found(first.config)) == Loaded(first.config, false)
  {
  }
}
