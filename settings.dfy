/** The settings record: what the command line, the configuration file and
    the environment can set. Only the shape of the record is modelled; how
    each source fills it in is outside the model. */
module Settings {
  import opened Wrappers

  datatype Settings = Settings(
    address: Option<string>,      // address of the receiver device
    device: Option<string>,       // name of the receiver device
    subtitles: Option<string>,    // path of a subtitles file
    noSearch: bool,
    loopPlayback: bool,
    shuffle: bool,
    seek: Option<string>,         // start position, as written by the user
    volumeStep: Option<real>,     // an `f32` in the program
    tomp4: bool,
    mediaType: Option<string>,    // MIME type of the media
    quiet: bool,
    noMetadata: bool,
    noCover: bool,
    showOptions: bool,
    exit: bool,
    command: Option<string>,
    mediaPath: Option<string>     // path or URL of the media to cast
  )

  /** The settings a source produces when it sets nothing: every optional
      field absent and every flag false. */
  const Unset := Settings(None, None, None, false, false, false, None, None, false,
                          None, false, false, false, false, false, None, None)
}
