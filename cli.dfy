/** The command-line application's shared settings (cli.go). */
module Cli {

  /** `defaultConfigFilename`: the base name of config files that are not named explicitly. */
  const DefaultConfigFilename: string := "mydyndns"

  /** `envPrefix`: the prefix of the environment variables the application reads. */
  const EnvPrefix: string := "MYDYNDNS"

  /** One second of a Go `time.Duration`, which counts nanoseconds. */
  const Second: int := 1_000_000_000

  /** `minimumPollInterval`: ten seconds. */
  const MinimumPollInterval: int := 10 * Second
}
