# gemini_castnow — a Dafny model of its decision logic

gemini_castnow casts a local file or a web URL to a Chromecast receiver. This
project models the parts of the program that decide what happens, with the
surrounding I/O taken out and passed in as values:

- **Playback controls** (`player_controls.dfy`). This is the key loop of
  `handle_player_controls`. Keys are taken off the queue in order. Each key,
  given the device status fetched for it, issues at most one device command:
  - space toggles play/pause and `s` stops;
  - `m` toggles mute, and Up/Down change the volume, clamped to [0, 1];
  - Left/Right seek, clamped to [0, duration];
  - `t` toggles the first text track in the active-track list;
  - `p`/`n` move through the queue;
  - `q` ends the loop.
- **Device selection** (`chromecast.dfy`). `select_device` resolves one device
  in this order: the address hint, the name hint, a single device, no device,
  then the interactive prompt over the user's input lines. The same file
  models the media descriptor that `cast` sends with the load request.
- **Relay request handler** (`server.dfy`). `handle_request` serves the file at
  `/` with status 200 (section 15.3.1 of RFC 9110). Every other path gets 404
  (section 15.5.5 of RFC 9110).
- **Settings merge** (`utils.dfy`, record shape in `settings.dfy`). Command-line
  values take precedence over file and environment values; flags are or-ed.
- **Media-path and playlist dispatch, and the CUE-sheet reader**
  (`launcher.dfy`, `cue.dfy`):
  - a web URL is cast directly; a local file is served by the relay and its
    URL is cast instead;
  - a playlist is routed by its lower-cased extension;
  - a CUE sheet is split with `str::lines` and read line by line into
    File/Track/Title/Index events, while the current file and track number
    are tracked.

`text.dfy` models the Rust string operations these rely on:
- `trim` and `split_whitespace`, using the Unicode White_Space set;
- `find`;
- `split`;
- `parse::<u32>` and `parse::<usize>`;
- decimal `Display` of a number.

`wrappers.dfy` holds `Option`.

The relay's handler has no error response. It unwraps both the open and the
read of the file (src/server.rs:22, 25), so a failure panics the handler and
no 500 is sent. `Server.HandleRequest` therefore requires a readable file on
the `/` path and produces only 200 and 404.

## Model

| member | source | states |
|---|---|---|
| PlayerControls.TogglePlayback | src/player_controls.rs:31-49 | Space issues a command exactly when the status reply has a first entry. It pauses that entry's media session when it is Playing and plays it in every other state. |
| PlayerControls.StopPlayback | src/player_controls.rs:214-224 | `s` issues stop for the first entry's media session exactly when there is a first entry. |
| PlayerControls.ToggleMute | src/player_controls.rs:50-62 | `m` issues set-volume exactly when the receiver status was fetched. The level is unchanged. The new mute flag is always present and is the negation of the old one, where a missing flag counts as not muted. |
| PlayerControls.RaisedLevel | src/player_controls.rs:98-100 | The level after Up is the old level (0 when unknown) plus 0.05, capped at exactly 1.0, and never above 1.0. |
| PlayerControls.LoweredLevel | src/player_controls.rs:112-114 | The level after Down is the old level minus 0.05, floored at exactly 0.0, and never below 0.0. |
| PlayerControls.VolumeUp | src/player_controls.rs:95-108 | Up issues a command exactly when the receiver status was fetched. The level sent is the raised level, so it is at most 1.0, and the mute flag is passed through unchanged. |
| PlayerControls.VolumeDown | src/player_controls.rs:109-122 | Down issues a command exactly when the receiver status was fetched. The level sent is the lowered level, so it is at least 0.0, and the mute flag is passed through unchanged. |
| PlayerControls.LowerUndoesRaise | src/player_controls.rs:98-120 | Down after an unclamped Up restores the level. |
| PlayerControls.VolumeClampExamples | src/player_controls.rs:98-120 | Boundary cases: 0.98 goes up to 1.0, 0.02 goes down to 0.0, and an unknown level goes up to 0.05. |
| PlayerControls.SeekBackTarget | src/player_controls.rs:128-131 | Left's target is never negative. It is ten seconds before the current time (0 when unknown), or 0 when that would be negative. |
| PlayerControls.SeekForwardTarget | src/player_controls.rs:144-151 | Right's target never passes the duration and never exceeds the current time plus ten seconds. It is one of those two values. With no duration it equals the current time, so there is no advance. |
| PlayerControls.SeekBackward | src/player_controls.rs:123-138 | Left issues a seek exactly when there is a first entry, to that entry's clamped back target. |
| PlayerControls.SeekForward | src/player_controls.rs:139-159 | Right issues a seek exactly when there is a first entry, to the clamped forward target computed from that entry's time and duration. |
| PlayerControls.SeekBackUndoesForward | src/player_controls.rs:128-156 | Seeking back after an unclamped forward seek returns to the starting time. |
| PlayerControls.SeekClampExamples | src/player_controls.rs:128-156 | Boundary cases: back from 5 s lands at 0, and forward from 3 s before the end lands at the end. |
| PlayerControls.FirstTextTrack | src/player_controls.rs:69-72 | The position found holds a text track and no earlier track is a text track. None means there is no text track. |
| PlayerControls.Without | src/player_controls.rs:75-78 | `retain` removes every occurrence of the id. Every other id keeps its number of occurrences, and the result is a subsequence, so relative order is kept. |
| PlayerControls.ToggleTrack | src/player_controls.rs:75-83 | After the toggle, the id is active exactly when it was not active before. Other ids keep their counts. Removal keeps the order, and addition appends at the end. |
| PlayerControls.WithoutSnoc | src/player_controls.rs:77 | Read from the back, `retain` keeps the last id unless it is the removed one. |
| PlayerControls.RetainInPlace | src/player_controls.rs:77 | Compacting the buffer in place leaves exactly `Without` of its old contents in front of the returned length, and the cells from that length on keep their old values. |
| PlayerControls.ToggleTrackTwice | src/player_controls.rs:75-83 | Turning a track on and then off again restores the active list. |
| PlayerControls.ToggleSubtitles | src/player_controls.rs:63-94 | `t` issues a command exactly when there is a first entry that has a text track. The command sets that entry's active list toggled on the first text track's id. |
| PlayerControls.ToggleSubtitlesStep | src/player_controls.rs:66-91 | The active list is copied into a buffer. Retaining in place when the track is active, or pushing it otherwise, then sending the result, issues the command `ToggleSubtitles` specifies. |
| PlayerControls.PositionOf | src/player_controls.rs:167-172 | The first queue item with the current id, or None when no item has it. |
| PlayerControls.CurrentPosition | src/player_controls.rs:165-172 | A position is found only when both the items and the current id are reported. It is the first item holding the current id. None means one of them is missing or no item holds the id. |
| PlayerControls.PreviousItem | src/player_controls.rs:160-186 | `p` issues a queue update exactly when the current item is found at a position above 0. It targets the item just before, whose id differs from the current one. |
| PlayerControls.NextItem | src/player_controls.rs:187-213 | `n` issues a queue update exactly when the current item is found before the last position. It targets the item just after. |
| PlayerControls.KeyCommand | src/player_controls.rs:30-230 | Only the ten keys whose arm sends a command can issue one (`q` and unknown keys issue none). Only `m`, Up and Down set the volume. Every media command is addressed to the session's transport. |
| PlayerControls.Issued | src/player_controls.rs:29-232 | Every command a key sequence issues is a volume command or is addressed to the session's transport. |
| PlayerControls.HandlePlayerControls | src/player_controls.rs:29-232 | The loop issues exactly the commands of the keys before the first `q`, in queue order, each arm as its function gives it and `t` through the in-place list update. It stops right after taking `q` off the queue. It drains the whole queue when there is no `q`. |
| PlayerControls.IssuedFrom | src/player_controls.rs:29-232 | Read from any position, the commands issued are that key's command followed by the rest, or nothing at a `q`. |
| PlayerControls.IssuedAtMostOnePerKey | src/player_controls.rs:29-232 | No more commands are issued than keys. |
| PlayerControls.IssuedInOrder | src/player_controls.rs:29-232 | Keys are handled strictly in order: the commands of a `q`-free prefix come first, then those of the rest. |
| PlayerControls.IssuedStopsAtQuit | src/player_controls.rs:225-229 | Nothing after the first `q` issues a command. |
| PlayerControls.UnknownKeyIgnored | src/player_controls.rs:230 | A key without an arm issues nothing and does not end the loop. |
| PlayerControls.SpaceMuteQuit | src/player_controls.rs:29-232 | The key sequence space, `m`, `q` issues the play/pause command, then the mute command, and nothing more. |
| Chromecast.MessageShape | src/chromecast.rs:54-75 | The three error messages differ in their first letter or in the letter after "Device with ". |
| Chromecast.MessageIdentifiesError | src/chromecast.rs:54-75 | The error message determines the error, including the hint it names. |
| Chromecast.FindByAddress | src/chromecast.rs:43-55 | The first device, in list order, having an address whose string form equals the hint. None means no device has it. |
| Chromecast.FindByName | src/chromecast.rs:57-68 | The first device whose full name starts with the hint (case-sensitive). None means no device matches. |
| Chromecast.ParseChoice | src/chromecast.rs:90-96 | A line is accepted exactly when its trimmed form parses as a `usize` n with 1 <= n <= count. It then chooses position n - 1. |
| Chromecast.PromptForDevice | src/chromecast.rs:84-99 | The prompt stops at the first line that is a valid choice and returns it. Every earlier line was invalid. If no line is valid, all lines are consumed and no choice is made. |
| Chromecast.SelectDevice | src/chromecast.rs:39-100 | The address hint decides alone, even when it fails, and the name hint is not consulted. Otherwise the name hint decides. Otherwise a single device is returned and an empty list fails. Two or more devices go to the prompt. A selected device is always an element of the list. |
| Chromecast.MediaDescriptor | src/chromecast.rs:116-125 | The content id is the media path. The content type is the settings' media type, or `video/mp4` when absent. The stream is Buffered, with no duration and no metadata. |
| Chromecast.NameHintIsPrefix | src/chromecast.rs:57-68 | The hint "LivingRoom" selects "LivingRoom-TV-1234". |
| Server.HandleRequest | src/server.rs:16-38 | The status is 200 exactly when the path is `/`, and 404 otherwise. A 200 carries the file's bytes as `video/mp4`. A 404 carries "Not Found" and no content type. |
| Server.RoutingUsesPathOnly | src/server.rs:20-21 | Neither the method nor the query string affects the response, and a 404 does not depend on the file. |
| Server.ServesHelloWorld | tests/server_test.rs:38-41 | A file holding "Hello, world!" is served back byte for byte with status 200. |
| Server.RejectsOtherPath | src/server.rs:33-37 | `GET /nope` is answered 404. |
| Utils.MergeSettings | src/utils.rs:3-23 | Every optional field takes the command-line value when present and the file/environment value otherwise. Every flag is the disjunction of the two. Each field depends only on the same-named fields. |
| Utils.MergeUnsetCli | src/utils.rs:83-144 | A command line that sets nothing leaves the file/environment settings unchanged. |
| Utils.MergeUnsetFileAndEnv | src/utils.rs:3-23 | A file/environment source that sets nothing leaves the command-line settings unchanged. |
| Utils.MergeIdempotent | src/utils.rs:3-23 | Merging a record with itself gives it back. |
| Utils.MergeAssociative | src/utils.rs:3-23 | Merging is associative. |
| Utils.MergeMixedSources | src/utils.rs:30-81 | A command-line address wins, and a file device fills a missing command-line one. File flags set to true survive command-line false, and the command-line volume step wins. |
| Text.TrimStart | src/chromecast.rs:90 | Only leading whitespace is dropped, and the result does not start with whitespace. |
| Text.TrimEnd | src/chromecast.rs:90 | Only trailing whitespace is dropped, and the result does not end with whitespace. |
| Text.TrimStartIsSuffix | src/chromecast.rs:90 | What `trim_start` keeps is a suffix of its input. |
| Text.TrimEndIsPrefix | src/chromecast.rs:90 | What `trim_end` keeps is a prefix of its input. |
| Text.Trim | src/main.rs:204 | The trimmed line neither starts nor ends with whitespace. |
| Text.TrimStartOfPadded | src/main.rs:204 | Trimming leading whitespace in front of a non-whitespace start gives that text back. |
| Text.TrimEndOfPadded | src/main.rs:204 | Trimming trailing whitespace after a non-whitespace end gives that text back. |
| Text.TrimOfPadded | src/main.rs:204 | `trim` removes exactly the surrounding whitespace. |
| Text.TokenLength | src/main.rs:218 | The leading token holds no whitespace and is followed by whitespace or the end. |
| Text.Words | src/main.rs:218 | Every word of `split_whitespace` is non-empty and free of whitespace. |
| Text.TokenLengthOfWord | src/main.rs:218 | A word followed by whitespace is the leading token. |
| Text.WordsOfWordThen | src/main.rs:218 | A word followed by whitespace is the first word. |
| Text.WordsOfJoinWords | src/main.rs:218 | `split_whitespace` gives back words that were joined with spaces. |
| Text.TrimStartAfterPad | src/main.rs:218 | Leading whitespace does not change what `trim_start` keeps. |
| Text.WordsAfterSpace | src/main.rs:232 | Leading whitespace does not change the words. |
| Text.ParseUnsigned | src/main.rs:219 | An accepted value fits the integer type, and the empty string and a lone `+` are rejected. |
| Text.ParseUnsignedDigits | src/main.rs:219 | A run of digits is read as its decimal value when that value fits, and is rejected when it does not, with no wrap-around. A leading `+` changes nothing. |
| Text.ParseUnsignedRejectsNonDigit | src/main.rs:219 | Any character other than a digit, apart from a leading `+`, makes the parse fail. |
| Text.DigitChar | src/main.rs:87 | A decimal digit character whose value is the given digit. |
| Text.ShowNat | src/main.rs:87 | The decimal form of a port is a non-empty run of digits without a leading zero. |
| Text.DigitsValueOfShowNat | src/main.rs:87 | The digits printed for a number have that number as their value. |
| Text.ParseShowNat | src/main.rs:87 | Parsing the printed form of a number gives the number back. |
| Text.IndexOf | src/main.rs:210 | `find` returns the first position holding the character, or None when the character is absent. |
| Text.Split | src/main.rs:203 | Splitting yields at least one piece, and no piece contains the separator. |
| Text.JoinSnoc | src/main.rs:203 | Joining puts the last piece after all the others, behind one separator. |
| Text.JoinSplit | src/main.rs:203 | Joining the pieces with the separator gives the input back. |
| Cue.Lines | src/main.rs:203 | No line contains a line feed, and an empty sheet has no lines. |
| Cue.LinesJoin | src/main.rs:203 | A non-empty sheet has lines, and they are its pieces between line feeds. Joined with line feeds they give the sheet back, less its final line feed if it had one. |
| Cue.OneQuoteOnly | src/main.rs:210-211 | A line with a single double quote has fewer than two quotes. |
| Cue.Quoted | src/main.rs:210-213 | Nothing is found exactly when the line has fewer than two quotes. What is found contains no quote. |
| Cue.QuotedOfWrapped | src/main.rs:210-213 | Text without quotes, placed between the first two quotes of a line, is exactly what is found. |
| Cue.LineEventByKeyword | src/main.rs:209-235 | Lines are classified by the first matching prefix, in the order FILE, TRACK, TITLE, INDEX. A FILE or TITLE line yields an event exactly when it has two quotes, and its text is quote-free. A TRACK line yields an event exactly when its second word parses as a `u32`, and the event carries that value. An INDEX line yields an event exactly when it has a third word, and the position is that word verbatim. Any other line yields nothing. |
| Cue.RawLineEventsOfLine | src/main.rs:204-207 | A raw line yields at most one event. A blank line yields none, and any event is the one of the trimmed, non-blank line. |
| Cue.ConcatLinesSnoc | src/main.rs:203 | One more line adds its own events at the end. |
| Cue.ConcatLinesPrefix | src/main.rs:203 | Reading one more line of the sheet adds that line's events after the earlier ones. |
| Cue.ConcatLinesAppend | src/main.rs:203-236 | Lines are read independently: the events of two runs of lines are the first run's events followed by the second's. |
| Cue.LinesEventsAppend | src/main.rs:203-236 | Splitting a sheet between two lines splits its events there. |
| Cue.LastFile | src/main.rs:212-213 | With no file event, the current file keeps its initial value. |
| Cue.LastTrack | src/main.rs:220 | With no track event, the current track number keeps its initial value. |
| Cue.LastComesFromEvents | src/main.rs:200-220 | The current file and track number are either their initial values or were read from a line of the sheet. |
| Cue.LastFileSnoc | src/main.rs:212-213 | A file event replaces the current file, and any other event leaves it unchanged. |
| Cue.LastTrackSnoc | src/main.rs:220 | A track event replaces the current number, and any other event leaves it unchanged. |
| Cue.LastFileSkipsOthers | src/main.rs:217-234 | Non-file events leave the current file as it was. |
| Cue.LastFileIsLatest | src/main.rs:209-234 | The current file is the path of the most recent file event. |
| Cue.HandleCueFile | src/main.rs:198-237 | The loop reports the events of the sheet's lines in order: each line trimmed, blank lines skipped, and each line classified by keyword. At the end the current file is the latest file event's path ("" if none), and the track number is the latest track event's number (0 if none). |
| Cue.FileOfQuoted | src/main.rs:209-216 | A FILE line yields the text between its first two quotes. |
| Cue.TitleOfQuoted | src/main.rs:224-230 | A TITLE line yields the text between its first two quotes. |
| Cue.FileWithoutQuotes | src/main.rs:209-216 | A FILE line without quotes yields nothing. |
| Cue.TrackOfWords | src/main.rs:217-223 | A line written as the word TRACK and further words separated by single spaces yields its second word's number exactly when that word parses as a `u32`. |
| Cue.IndexOfWords | src/main.rs:231-234 | A line written as the word INDEX and further words separated by single spaces yields its third word verbatim when it has one, and nothing otherwise. |
| Cue.ParseLeadingZero | src/main.rs:219 | The number `01` is read as 1, because leading zeros are accepted. |
| Launcher.WebUrlSchemes | src/main.rs:76 | Paths starting with `http://` or `https://` are web URLs. Upper-case schemes, other schemes and local paths are not. |
| Launcher.RelayUrl | src/main.rs:87 | The relay's URL is a web URL: the loopback prefix followed by the port's digits. |
| Launcher.RelayUrlPort | src/main.rs:87 | The port can be read back from the relay's URL. |
| Launcher.PlanCast | src/main.rs:76-92 | An `http://` or `https://` path is cast as it is. A missing local file stops with "not found". An existing local file is served, and the cast uses the relay's URL as the media path with every other setting unchanged. |
| Launcher.CastContentIsWebUrl | src/main.rs:76-92 | Whatever is cast, the receiver is given a web URL, with the content type the settings ask for. |
| Launcher.LastIndexOf | src/main.rs:178 | The last position holding the character, or None when it is absent. |
| Launcher.LastIndexOfSplit | src/main.rs:178 | The separator before a separator-free tail is the last one. |
| Launcher.FileName | src/main.rs:178 | The file name is a slash-free suffix of the path. |
| Launcher.Extension | src/main.rs:178 | The extension of a path is its file name's extension, so it contains no dot and no slash. |
| Launcher.NameExtension | src/main.rs:178 | A non-empty extension is what follows a dot that is not the name's first character, and it contains no dot, so that dot is the last one. A name without a dot, or whose only dot is its first character (`.cue`), has no extension. |
| Launcher.NameExtensionOfStem | src/main.rs:178 | The extension of `stem.ext` with a non-empty stem is `ext`. |
| Launcher.FileNameAfterDirectory | src/main.rs:178 | The file name of `dir/name` is `name`. |
| Launcher.ExtensionOfNamed | src/main.rs:178 | The extension of `dir/stem.ext` is `ext`. |
| Launcher.AsciiLower | src/main.rs:180 | Lower-casing maps each character to its lower-case letter and keeps the length. |
| Launcher.AsciiLowerIdempotent | src/main.rs:180 | Lower-casing twice is lower-casing once. |
| Launcher.ReaderFor | src/main.rs:180-195 | An extension goes to the playlist decoder exactly when its lower-case form is m3u, m3u8, pls or xspf. It goes to the CUE reader exactly when its lower-case form is cue. |
| Launcher.ReaderForIgnoresCase | src/main.rs:180 | The choice of reader ignores letter case. |
| Launcher.ReaderExamples | src/main.rs:180-195 | `CUE` goes to the CUE reader and `M3U8` to the decoder. An empty or `txt` extension has no reader. |
| Launcher.HandlePlaylistFile | src/main.rs:162-196 | A missing file and a read failure each stop before the extension is looked at. Otherwise the contents are decoded, read as a CUE sheet, or rejected as unsupported, according to the extension. |
| Launcher.AlbumExtension | src/main.rs:178 | The extension of `music/Album.CUE` is `CUE`. |
| Launcher.CueSheetExample | src/main.rs:178-191 | `music/Album.CUE` is read as a CUE sheet. |
| Launcher.NoExtensionUnsupported | src/main.rs:178-194 | A file whose name has no dot is unsupported, whatever it holds. |
| Launcher.ExtensionOfDotFile | src/main.rs:178 | A file name whose only dot is its first character, such as `music/.cue`, has no extension. |
| Launcher.DotFileUnsupported | src/main.rs:178-194 | A file such as `music/.cue` is unsupported, whatever it holds. |

## Left out

- Device discovery over mDNS/DNS-SD (`discover_devices`), with its wall-clock timeout, is network I/O and timing. The devices are a parameter.
- The connect, launch and load calls in `cast` go into the casting library over the network. Only the descriptor they send is modelled.
- The relay's accept loop and shutdown (`start_server`) are about concurrency and sockets. The relay's port is a parameter.
- The terminal plumbing of the player controls is left out: raw mode, the keyboard event stream, the producer task and the channel. The queue is a sequence of keys, each paired with the device status fetched for it, where a failed fetch is `None`.
- The command results are discarded by the program and are not modelled. The status requests are inputs.
- All printed output is left out. That covers the progress and error lines, the CUE lines, the playlist header with its upper-cased extension, and the prompt text. The model returns events, outcomes and error values instead.
- Volume levels (`f32`) and times (`f64`) are real numbers. Rounding, NaN and the inexactness of 0.05 are not modelled.
- `handle_audio_file`, `handle_html_file` and `decode_playlist` are thin wrappers over libraries. `config.rs` and `lib.rs` are not part of this model. The command-line and deserialisation derives are not modelled; only the settings record's shape is.
- `main`'s sequencing of I/O steps is modelled only in the URL/local decision and the playlist dispatch.
- Chromecast.SelectDevice: the program keeps prompting forever when input ends. The model's input is finite and reports `AwaitingInput` when it runs out. Read errors on standard input are not modelled.
- Chromecast.SelectDevice: `usize` is taken to be 64 bits wide.
- Server.HandleRequest: an unreadable file on `/` makes the program panic. The model requires a readable file there instead of modelling the panic.
- Launcher.Extension: path normalisation (a trailing `/`, `.` and `..` components) is simplified. The file name is what follows the last `/`.
- Launcher.AsciiLower: only ASCII letters are lower-cased. No other character lower-cases into one of the recognised extensions, so the dispatch is unaffected.
- PlayerControls.SeekBackward: the resume-state argument of the seek command is always `None` in the program and is not modelled.
- The player-controls integration test and the directory-play test hold logic of their own that the program does not have, and are not modelled.
