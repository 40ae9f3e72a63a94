/**
 The command line the simulator is started with: the first argument is kept
 as the build command and the second as the name of the setting file.
 Further arguments are ignored.
 */
module IoConfig {
  import opened Results

  datatype Config = Config(buildCommand: string, fileName: string)

  const NotEnoughArguments: string := "Not enough arguments"

  function New(args: seq<string>): (r: Result<Config>)
    ensures r.Err? <==> |args| < 2
    ensures r.Err? ==> r.error == NotEnoughArguments
    ensures r.Ok? ==> r.value.buildCommand == args[0] && r.value.fileName == args[1]
  {
    if |args| < 2 then Err(NotEnoughArguments)
    else Ok(Config(args[0], args[1]))
  }

  /** Arguments after the second never change the outcome. */
  lemma ExtraArgumentsIgnored(args: seq<string>, extra: seq<string>)
    requires 2 <= |args|
    ensures New(args + extra) == New(args)
  {
  }

  /** Every configuration is recovered from the two-argument command line that spells it out. */
  lemma NewRoundTrip(c: Config)
    ensures New([c.buildCommand, c.fileName]) == Ok(c)
  {
  }

}
