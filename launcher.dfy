/** The program's two dispatch decisions. A media path that is already a web
    URL is cast as it is, while a local file is served through the relay and
    the relay's URL is cast in its place. A playlist file is handed to a reader
    chosen by its lower-cased extension. */
module Launcher {
  import opened Wrappers
  import opened Text
  import opened Settings
  import Chromecast
  import Cue

  /** The media path names a web resource when it starts with one of the two
      schemes (case-sensitive). */
  predicate IsWebUrl(path: string) {
    "http://" <= path || "https://" <= path
  }

  /** Only the two lower-case schemes count, and only at the very start of the path. */
  lemma WebUrlSchemes(rest: string)
    ensures IsWebUrl("http://" + rest) && IsWebUrl("https://" + rest)
    ensures !IsWebUrl("HTTP://" + rest) && !IsWebUrl("ftp://" + rest) && !IsWebUrl("/" + rest)
  {
    assert ("http://" + rest)[..7] == "http://";
    assert ("https://" + rest)[..8] == "https://";
    assert ("HTTP://" + rest)[0] == 'H';
    assert ("ftp://" + rest)[0] == 'f';
    assert ("/" + rest)[0] == '/';
  }

  /** The relay listens on the IPv4 loopback address, at a port the system picks. */
  const RelayPrefix := "http://127.0.0.1:"

  /** `http://` followed by the relay's socket address. */
  function RelayUrl(port: nat): (url: string)
    ensures IsWebUrl(url)
    ensures RelayPrefix <= url && |url| > |RelayPrefix|
    ensures AllDigits(url[|RelayPrefix|..])
  {
    assert (RelayPrefix + ShowNat(port))[..|RelayPrefix|] == RelayPrefix;
    assert (RelayPrefix + ShowNat(port))[..7] == "http://";
    assert (RelayPrefix + ShowNat(port))[|RelayPrefix|..] == ShowNat(port);
    RelayPrefix + ShowNat(port)
  }

  /** The relay's port can be read back from its URL. */
  lemma RelayUrlPort(port: nat)
    requires port < 0x1_0000
    ensures ParseUnsigned(RelayUrl(port)[|RelayPrefix|..], 0x1_0000) == Some(port)
  {
    assert RelayUrl(port)[|RelayPrefix|..] == ShowNat(port);
    ParseShowNat(port, 0x1_0000);
  }

  /** What happens to a media path: cast with the settings as they are, serve
      the local file and cast with the relay's URL as the media path, or stop
      because the local file does not exist. */
  datatype CastPlan =
    | CastDirectly(settings: Settings)
    | ServeThenCast(file: string, settings: Settings)
    | FileNotFound(path: string)

  /** Two settings records that differ at most in their media path. */
  predicate SameButMediaPath(a: Settings, b: Settings) {
    a.(mediaPath := None) == b.(mediaPath := None)
  }

  /** The decision for a media path, given whether it exists as a local file
      and the port the relay was given. */
  function PlanCast(settings: Settings, localFileExists: bool, relayPort: nat): (plan: CastPlan)
    requires settings.mediaPath.Some?
    ensures plan.FileNotFound? <==> !IsWebUrl(settings.mediaPath.value) && !localFileExists
    ensures plan.FileNotFound? ==> plan.path == settings.mediaPath.value
    ensures plan.CastDirectly? <==> IsWebUrl(settings.mediaPath.value)
    ensures plan.CastDirectly? ==> plan.settings == settings
    ensures plan.ServeThenCast? ==> plan.file == settings.mediaPath.value
                                    && plan.settings.mediaPath == Some(RelayUrl(relayPort))
    ensures !plan.FileNotFound? ==> SameButMediaPath(plan.settings, settings)
  {
    var mediaPath := settings.mediaPath.value;
    if IsWebUrl(mediaPath) then CastDirectly(settings)
    else if !localFileExists then FileNotFound(mediaPath)
    else ServeThenCast(mediaPath, settings.(mediaPath := Some(RelayUrl(relayPort))))
  }

  /** Whatever is cast, the receiver is given a web URL to load, and the
      content type it is told is the one the settings ask for. */
  lemma CastContentIsWebUrl(settings: Settings, localFileExists: bool, relayPort: nat)
    requires settings.mediaPath.Some?
    ensures var plan := PlanCast(settings, localFileExists, relayPort);
            !plan.FileNotFound? ==>
              && IsWebUrl(Chromecast.MediaDescriptor(plan.settings).contentId)
              && Chromecast.MediaDescriptor(plan.settings).contentType
                 == Chromecast.MediaDescriptor(settings).contentType
  {
  }

  // ---------------------------------------------------------------------------
  // Playlist dispatch

  /** Position of the last occurrence of `c`. */
  function LastIndexOf(s: string, c: char): (r: Option<nat>)
    ensures r.Some? ==> r.value < |s| && s[r.value] == c && c !in s[r.value + 1..]
    ensures r.None? ==> c !in s
  {
    if s == [] then None
    else if s[|s| - 1] == c then Some(|s| - 1)
    else
      var r := LastIndexOf(s[..|s| - 1], c);
      assert s == s[..|s| - 1] + [s[|s| - 1]];
      if r.Some? then
        assert s[r.value + 1..] == s[..|s| - 1][r.value + 1..] + [s[|s| - 1]];
        r
      else r
  }

  lemma {:induction false} LastIndexOfSplit(a: string, c: char, b: string)
    requires c !in b
    ensures LastIndexOf(a + [c] + b, c) == Some(|a|)
    decreases |b|
  {
    var s := a + [c] + b;
    if b != [] {
      assert s[..|s| - 1] == a + [c] + b[..|b| - 1];
      LastIndexOfSplit(a, c, b[..|b| - 1]);
    }
  }

  /** The last component of a path. */
  function FileName(path: string): (name: string)
    ensures '/' !in name
    ensures |name| <= |path| && name == path[|path| - |name|..]
  {
    match LastIndexOf(path, '/')
    case None => path
    case Some(i) => path[i + 1..]
  }

  /** `Path::extension`, with a missing extension read as the empty string: the
      part of the file name after its last dot, unless that dot begins the name. */
  function Extension(path: string): (ext: string)
    ensures '.' !in ext && '/' !in ext
  {
    NameExtension(FileName(path))
  }

  /** The extension of a file name: what follows its last dot, provided that
      dot is not the name's first character. */
  function NameExtension(name: string): (ext: string)
    ensures '.' !in ext
    ensures |ext| <= |name|
    ensures ext != [] ==>
              |ext| + 1 < |name| && name[|name| - |ext| - 1] == '.' && name[|name| - |ext|..] == ext
    ensures '.' !in name ==> ext == []
    ensures name != [] && name[0] == '.' && '.' !in name[1..] ==> ext == []
  {
    match LastIndexOf(name, '.')
    case None => ""
    case Some(i) =>
      if i > 0 then
        assert name[1..][i - 1] == name[i];
        name[i + 1..]
      else ""
  }

  lemma NameExtensionOfStem(stem: string, ext: string)
    requires stem != [] && '.' !in ext
    ensures NameExtension(stem + ['.'] + ext) == ext
  {
    LastIndexOfSplit(stem, '.', ext);
    assert (stem + ['.'] + ext)[|stem| + 1..] == ext;
  }

  lemma FileNameAfterDirectory(dir: string, name: string)
    requires dir == [] || dir[|dir| - 1] == '/'
    requires '/' !in name
    ensures FileName(dir + name) == name
  {
    if dir != [] {
      assert dir + name == dir[..|dir| - 1] + ['/'] + name;
      LastIndexOfSplit(dir[..|dir| - 1], '/', name);
      assert (dir + name)[|dir|..] == name;
    }
  }

  /** The extension of `dir/stem.ext` is `ext`. */
  lemma ExtensionOfNamed(dir: string, stem: string, ext: string)
    requires dir == [] || dir[|dir| - 1] == '/'
    requires stem != [] && '/' !in stem && '/' !in ext && '.' !in ext
    ensures Extension(dir + stem + "." + ext) == ext
  {
    var name := stem + ['.'] + ext;
    assert dir + stem + "." + ext == dir + name;
    FileNameAfterDirectory(dir, name);
    NameExtensionOfStem(stem, ext);
  }

  function LowerChar(c: char): char {
    if 'A' <= c <= 'Z' then (c as int - 'A' as int + 'a' as int) as char else c
  }

  /** `str::to_lowercase` on ASCII letters; other characters are kept. */
  function AsciiLower(s: string): (r: string)
    ensures |r| == |s| && forall i :: 0 <= i < |s| ==> r[i] == LowerChar(s[i])
  {
    seq(|s|, i requires 0 <= i < |s| => LowerChar(s[i]))
  }

  lemma AsciiLowerIdempotent(s: string)
    ensures AsciiLower(AsciiLower(s)) == AsciiLower(s)
  {
  }

  datatype PlaylistReader = PlaylistDecoder | CueReader | NoReader

  const DecodedExtensions: set<string> := {"m3u", "m3u8", "pls", "xspf"}

  /** The reader for an extension, compared in lower case. */
  function ReaderFor(extension: string): (reader: PlaylistReader)
    ensures reader == PlaylistDecoder <==> AsciiLower(extension) in DecodedExtensions
    ensures reader == CueReader <==> AsciiLower(extension) == "cue"
  {
    var lower := AsciiLower(extension);
    if lower in DecodedExtensions then PlaylistDecoder
    else if lower == "cue" then CueReader
    else NoReader
  }

  /** The choice ignores letter case. */
  lemma ReaderForIgnoresCase(extension: string)
    ensures ReaderFor(AsciiLower(extension)) == ReaderFor(extension)
  {
    AsciiLowerIdempotent(extension);
  }

  /** Upper-case extensions are recognised; a missing one is not. */
  lemma ReaderExamples()
    ensures ReaderFor("CUE") == CueReader
    ensures ReaderFor("M3U8") == PlaylistDecoder
    ensures ReaderFor("") == NoReader
    ensures ReaderFor("txt") == NoReader
  {
    assert AsciiLower("CUE") == "cue";
    assert AsciiLower("M3U8") == "m3u8";
    assert AsciiLower("txt") == "txt";
  }

  /** The playlist file as the program finds it. */
  datatype PlaylistFile = Missing | Unreadable | Contents(text: string)

  /** What becomes of a playlist file: an error, its text handed to the
      playlist decoder, the events of its CUE sheet, or an unsupported format. */
  datatype PlaylistOutcome =
    | NotFound
    | ReadFailed
    | Decode(content: string)
    | CueSheet(events: seq<Cue.CueEvent>)
    | Unsupported

  /** A missing or unreadable file stops before the extension is looked at. */
  function HandlePlaylistFile(path: string, file: PlaylistFile): (r: PlaylistOutcome)
    ensures r == NotFound <==> file.Missing?
    ensures r == ReadFailed <==> file.Unreadable?
    ensures r.Decode? <==> file.Contents? && ReaderFor(Extension(path)) == PlaylistDecoder
    ensures r.Decode? ==> r.content == file.text
    ensures r.CueSheet? <==> file.Contents? && AsciiLower(Extension(path)) == "cue"
    ensures r.CueSheet? ==> r.events == Cue.CueEvents(file.text)
    ensures r == Unsupported <==> file.Contents? && ReaderFor(Extension(path)) == NoReader
  {
    match file
    case Missing => NotFound
    case Unreadable => ReadFailed
    case Contents(text) =>
      match ReaderFor(Extension(path))
      case PlaylistDecoder => Decode(text)
      case CueReader => CueSheet(Cue.CueEvents(text))
      case NoReader => Unsupported
  }

  lemma AlbumExtension()
    ensures Extension("music/Album.CUE") == "CUE"
  {
    assert "music/Album.CUE" == "music/" + "Album" + "." + "CUE";
    ExtensionOfNamed("music/", "Album", "CUE");
  }

  /** `music/Album.CUE` is read as a CUE sheet. */
  lemma CueSheetExample(text: string)
    ensures HandlePlaylistFile("music/Album.CUE", Contents(text)) == CueSheet(Cue.CueEvents(text))
  {
    AlbumExtension();
    ReaderExamples();
  }

  /** A file whose name's only dot is its first character, such as `.cue`, has
      no extension. */
  lemma ExtensionOfDotFile(dir: string, rest: string)
    requires dir == [] || dir[|dir| - 1] == '/'
    requires '/' !in rest && '.' !in rest
    ensures Extension(dir + "." + rest) == []
  {
    var name := "." + rest;
    assert name[1..] == rest;
    assert dir + "." + rest == dir + name;
    FileNameAfterDirectory(dir, name);
  }

  /** Such a file is therefore unsupported, whatever it holds. */
  lemma DotFileUnsupported(dir: string, rest: string, text: string)
    requires dir == [] || dir[|dir| - 1] == '/'
    requires '/' !in rest && '.' !in rest
    ensures HandlePlaylistFile(dir + "." + rest, Contents(text)) == Unsupported
  {
    ExtensionOfDotFile(dir, rest);
    ReaderExamples();
  }

  /** A file whose name has no dot has no extension, so it is not a playlist
      whatever it holds. */
  lemma NoExtensionUnsupported(dir: string, name: string, text: string)
    requires dir == [] || dir[|dir| - 1] == '/'
    requires '/' !in name && '.' !in name
    ensures HandlePlaylistFile(dir + name, Contents(text)) == Unsupported
  {
    FileNameAfterDirectory(dir, name);
    ReaderExamples();
  }
}
