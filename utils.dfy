/** Merging the command-line settings with those read from the configuration
    file and the environment. */
module Utils {
  import opened Wrappers
  import opened Settings

  /** The command-line value when there is one, otherwise the other source's. */
  predicate Prefers<T(==)>(cli: Option<T>, fileAndEnv: Option<T>, merged: Option<T>) {
    if cli.Some? then merged == cli else merged == fileAndEnv
  }

  /** Every optional field takes the command-line value when present and the
      file/environment value otherwise; every flag is set when either source
      sets it. Each field of the result thus depends only on the same-named
      fields of the two inputs. */
  function MergeSettings(cli: Settings, fileAndEnv: Settings): (r: Settings)
    ensures Prefers(cli.address, fileAndEnv.address, r.address)
    ensures Prefers(cli.device, fileAndEnv.device, r.device)
    ensures Prefers(cli.subtitles, fileAndEnv.subtitles, r.subtitles)
    ensures r.noSearch == (cli.noSearch || fileAndEnv.noSearch)
    ensures r.loopPlayback == (cli.loopPlayback || fileAndEnv.loopPlayback)
    ensures r.shuffle == (cli.shuffle || fileAndEnv.shuffle)
    ensures Prefers(cli.seek, fileAndEnv.seek, r.seek)
    ensures Prefers(cli.volumeStep, fileAndEnv.volumeStep, r.volumeStep)
    ensures r.tomp4 == (cli.tomp4 || fileAndEnv.tomp4)
    ensures Prefers(cli.mediaType, fileAndEnv.mediaType, r.mediaType)
    ensures r.quiet == (cli.quiet || fileAndEnv.quiet)
    ensures r.noMetadata == (cli.noMetadata || fileAndEnv.noMetadata)
    ensures r.noCover == (cli.noCover || fileAndEnv.noCover)
    ensures r.showOptions == (cli.showOptions || fileAndEnv.showOptions)
    ensures r.exit == (cli.exit || fileAndEnv.exit)
    ensures Prefers(cli.command, fileAndEnv.command, r.command)
    ensures Prefers(cli.mediaPath, fileAndEnv.mediaPath, r.mediaPath)
  {
    Settings(
      address := cli.address.Or(fileAndEnv.address),
      device := cli.device.Or(fileAndEnv.device),
      subtitles := cli.subtitles.Or(fileAndEnv.subtitles),
      noSearch := cli.noSearch || fileAndEnv.noSearch,
      loopPlayback := cli.loopPlayback || fileAndEnv.loopPlayback,
      shuffle := cli.shuffle || fileAndEnv.shuffle,
      seek := cli.seek.Or(fileAndEnv.seek),
      volumeStep := cli.volumeStep.Or(fileAndEnv.volumeStep),
      tomp4 := cli.tomp4 || fileAndEnv.tomp4,
      mediaType := cli.mediaType.Or(fileAndEnv.mediaType),
      quiet := cli.quiet || fileAndEnv.quiet,
      noMetadata := cli.noMetadata || fileAndEnv.noMetadata,
      noCover := cli.noCover || fileAndEnv.noCover,
      showOptions := cli.showOptions || fileAndEnv.showOptions,
      exit := cli.exit || fileAndEnv.exit,
      command := cli.command.Or(fileAndEnv.command),
      mediaPath := cli.mediaPath.Or(fileAndEnv.mediaPath)
    )
  }

  /** A command line that sets nothing leaves the file/environment settings as they are. */
  lemma MergeUnsetCli(fileAndEnv: Settings)
    ensures MergeSettings(Unset, fileAndEnv) == fileAndEnv
  {
  }

  /** A file/environment source that sets nothing leaves the command-line settings as they are. */
  lemma MergeUnsetFileAndEnv(cli: Settings)
    ensures MergeSettings(cli, Unset) == cli
  {
  }

  lemma MergeIdempotent(s: Settings)
    ensures MergeSettings(s, s) == s
  {
  }

  lemma MergeAssociative(a: Settings, b: Settings, c: Settings)
    ensures MergeSettings(a, MergeSettings(b, c)) == MergeSettings(MergeSettings(a, b), c)
  {
  }

  /** The mixed case: a command-line address wins, a file/environment device
      fills a missing command-line one, and flags set in the file survive
      command-line `false`. */
  lemma MergeMixedSources()
    ensures var cli := Unset.(address := Some("192.168.1.100"), noSearch := true,
                              volumeStep := Some(0.05));
            var file := Unset.(address := Some("192.168.1.101"), device := Some("Bedroom TV"),
                               subtitles := Some("sub.srt"), loopPlayback := true,
                               volumeStep := Some(0.1), tomp4 := true);
            var merged := MergeSettings(cli, file);
            && merged.address == Some("192.168.1.100")
            && merged.device == Some("Bedroom TV")
            && merged.subtitles == Some("sub.srt")
            && merged.noSearch && merged.loopPlayback && merged.tomp4
            && merged.volumeStep == Some(0.05)
  {
  }
}
