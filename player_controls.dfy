/** The interactive playback controls. Keys are taken off the queue in the
    order they were pressed; each one, given the device's status at that
    moment, issues at most one device command, and `q` ends the session. */
module PlayerControls {
  import opened Wrappers

  datatype Key = Char(c: char) | Up | Down | Left | Right | OtherKey

  const Quit := Char('q')

  datatype PlayerState = Idle | Playing | Paused | Buffering

  datatype TrackType = Text | Audio | Video

  datatype Track = Track(trackId: int, trackType: TrackType)

  datatype QueueItem = QueueItem(itemId: int)

  datatype MediaInfo = MediaInfo(duration: Option<real>)

  /** One entry of a media status reply. */
  datatype MediaStatusEntry = MediaStatusEntry(
    mediaSessionId: int,
    playerState: PlayerState,
    currentTime: Option<real>,
    media: Option<MediaInfo>,
    activeTrackIds: Option<seq<int>>,
    tracks: Option<seq<Track>>,
    currentItemId: Option<int>,
    items: Option<seq<QueueItem>>
  )

  datatype Volume = Volume(level: Option<real>, muted: Option<bool>)

  /** What the device reports when a key is handled: the entries of the media
      status reply, and the receiver's volume; `None` where the status request
      failed. */
  datatype DeviceStatus = DeviceStatus(media: Option<seq<MediaStatusEntry>>, receiver: Option<Volume>)

  /** The device commands the controls issue. Media commands are addressed to
      the session's transport and to the media session of the first status entry. */
  datatype Command =
    | Play(transportId: string, mediaSessionId: int)
    | Pause(transportId: string, mediaSessionId: int)
    | Stop(transportId: string, mediaSessionId: int)
    | Seek(transportId: string, mediaSessionId: int, position: real)
    | SetActiveTracks(transportId: string, mediaSessionId: int, trackIds: seq<int>)
    | QueueUpdate(transportId: string, mediaSessionId: int, itemId: int)
    | SetVolume(volume: Volume)

  const VolumeStep: real := 0.05
  const SeekStep: real := 10.0

  function Min(a: real, b: real): real { if a <= b then a else b }
  function Max(a: real, b: real): real { if a >= b then a else b }

  /** The first entry of a media status reply, if the request succeeded and there is one. */
  function FirstEntry(media: Option<seq<MediaStatusEntry>>): Option<MediaStatusEntry> {
    if media.Some? && |media.value| > 0 then Some(media.value[0]) else None
  }

  // ---------------------------------------------------------------------------
  // Space and `s`: play/pause toggle and stop

  /** Space: pause when the first entry is playing, play in every other state;
      nothing without an entry. */
  function TogglePlayback(transportId: string, media: Option<seq<MediaStatusEntry>>): (r: Option<Command>)
    ensures r.Some? <==> FirstEntry(media).Some?
    ensures r.Some? ==> (r.value.Pause? || r.value.Play?)
                        && r.value.transportId == transportId
                        && r.value.mediaSessionId == FirstEntry(media).value.mediaSessionId
    ensures r.Some? ==> (r.value.Pause? <==> FirstEntry(media).value.playerState == Playing)
  {
    match FirstEntry(media)
    case None => None
    case Some(entry) =>
      if entry.playerState == Playing then Some(Pause(transportId, entry.mediaSessionId))
      else Some(Play(transportId, entry.mediaSessionId))
  }

  /** `s`: stop exactly when there is a first entry. */
  function StopPlayback(transportId: string, media: Option<seq<MediaStatusEntry>>): (r: Option<Command>)
    ensures r.Some? <==> FirstEntry(media).Some?
    ensures r.Some? ==> r.value == Stop(transportId, FirstEntry(media).value.mediaSessionId)
  {
    match FirstEntry(media)
    case None => None
    case Some(entry) => Some(Stop(transportId, entry.mediaSessionId))
  }

  // ---------------------------------------------------------------------------
  // `m`, Up, Down: volume

  /** `m`: the level is passed through and the mute flag flipped, a missing
      flag counting as not muted, so the new flag is always present. */
  function ToggleMute(receiver: Option<Volume>): (r: Option<Command>)
    ensures r.Some? <==> receiver.Some?
    ensures r.Some? ==> r.value.SetVolume? && r.value.volume.level == receiver.value.level
    ensures r.Some? ==> r.value.volume.muted.Some?
                        && (r.value.volume.muted.value <==> receiver.value.muted != Some(true))
  {
    match receiver
    case None => None
    case Some(v) => Some(SetVolume(Volume(v.level, Some(!v.muted.GetOr(false)))))
  }

  /** The level after Up: one step louder, but never above 1.0. */
  function RaisedLevel(level: Option<real>): (r: real)
    ensures r <= 1.0
    ensures level.GetOr(0.0) + VolumeStep <= 1.0 ==> r == level.GetOr(0.0) + VolumeStep
    ensures level.GetOr(0.0) + VolumeStep > 1.0 ==> r == 1.0
  {
    Min(level.GetOr(0.0) + VolumeStep, 1.0)
  }

  /** The level after Down: one step quieter, but never below 0.0. */
  function LoweredLevel(level: Option<real>): (r: real)
    ensures r >= 0.0
    ensures level.GetOr(0.0) - VolumeStep >= 0.0 ==> r == level.GetOr(0.0) - VolumeStep
    ensures level.GetOr(0.0) - VolumeStep < 0.0 ==> r == 0.0
  {
    Max(level.GetOr(0.0) - VolumeStep, 0.0)
  }

  /** Up: sets the raised level and passes the mute flag through unchanged. */
  function VolumeUp(receiver: Option<Volume>): (r: Option<Command>)
    ensures r.Some? <==> receiver.Some?
    ensures r.Some? ==> r.value.SetVolume? && r.value.volume.muted == receiver.value.muted
    ensures r.Some? ==> r.value.volume.level == Some(RaisedLevel(receiver.value.level))
    ensures r.Some? ==> r.value.volume.level.Some? && r.value.volume.level.value <= 1.0
  {
    match receiver
    case None => None
    case Some(v) => Some(SetVolume(Volume(Some(RaisedLevel(v.level)), v.muted)))
  }

  /** Down: sets the lowered level and passes the mute flag through unchanged. */
  function VolumeDown(receiver: Option<Volume>): (r: Option<Command>)
    ensures r.Some? <==> receiver.Some?
    ensures r.Some? ==> r.value.SetVolume? && r.value.volume.muted == receiver.value.muted
    ensures r.Some? ==> r.value.volume.level == Some(LoweredLevel(receiver.value.level))
    ensures r.Some? ==> r.value.volume.level.Some? && r.value.volume.level.value >= 0.0
  {
    match receiver
    case None => None
    case Some(v) => Some(SetVolume(Volume(Some(LoweredLevel(v.level)), v.muted)))
  }

  /** Down undoes Up whenever Up was not clamped. */
  lemma LowerUndoesRaise(level: real)
    requires 0.0 <= level <= 1.0 - VolumeStep
    ensures LoweredLevel(Some(RaisedLevel(Some(level)))) == level
  {
  }

  /** The clamps of the volume keys at their boundaries. */
  lemma VolumeClampExamples()
    ensures RaisedLevel(Some(0.98)) == 1.0
    ensures LoweredLevel(Some(0.02)) == 0.0
    ensures RaisedLevel(None) == 0.05
  {
  }

  // ---------------------------------------------------------------------------
  // Left, Right: seeking

  /** The duration of the media of an entry, when known. */
  function Duration(entry: MediaStatusEntry): Option<real> {
    if entry.media.Some? then entry.media.value.duration else None
  }

  /** The position Left seeks to: ten seconds back, never before 0. */
  function SeekBackTarget(currentTime: Option<real>): (r: real)
    ensures r >= 0.0
    ensures currentTime.GetOr(0.0) >= SeekStep ==> r == currentTime.GetOr(0.0) - SeekStep
    ensures currentTime.GetOr(0.0) < SeekStep ==> r == 0.0
  {
    Max(currentTime.GetOr(0.0) - SeekStep, 0.0)
  }

  /** The position Right seeks to: ten seconds on, never past the duration;
      an unknown duration counts as the current time, so there is no advance. */
  function SeekForwardTarget(currentTime: Option<real>, duration: Option<real>): (r: real)
    ensures r <= duration.GetOr(currentTime.GetOr(0.0))
    ensures r <= currentTime.GetOr(0.0) + SeekStep
    ensures r == currentTime.GetOr(0.0) + SeekStep || r == duration.GetOr(currentTime.GetOr(0.0))
    ensures duration.None? ==> r == currentTime.GetOr(0.0)
  {
    var current := currentTime.GetOr(0.0);
    Min(current + SeekStep, duration.GetOr(current))
  }

  /** Left issues a seek to `SeekBackTarget` for the first entry, if any. */
  function SeekBackward(transportId: string, media: Option<seq<MediaStatusEntry>>): (r: Option<Command>)
    ensures r.Some? <==> FirstEntry(media).Some?
    ensures r.Some? ==> r.value.Seek? && r.value.transportId == transportId
                        && r.value.mediaSessionId == FirstEntry(media).value.mediaSessionId
                        && r.value.position == SeekBackTarget(FirstEntry(media).value.currentTime)
  {
    match FirstEntry(media)
    case None => None
    case Some(entry) => Some(Seek(transportId, entry.mediaSessionId, SeekBackTarget(entry.currentTime)))
  }

  /** Right issues a seek to `SeekForwardTarget` for the first entry, if any. */
  function SeekForward(transportId: string, media: Option<seq<MediaStatusEntry>>): (r: Option<Command>)
    ensures r.Some? <==> FirstEntry(media).Some?
    ensures r.Some? ==> r.value.Seek? && r.value.transportId == transportId
                        && r.value.mediaSessionId == FirstEntry(media).value.mediaSessionId
                        && r.value.position == SeekForwardTarget(FirstEntry(media).value.currentTime,
                                                                 Duration(FirstEntry(media).value))
  {
    match FirstEntry(media)
    case None => None
    case Some(entry) => Some(Seek(transportId, entry.mediaSessionId, SeekForwardTarget(entry.currentTime, Duration(entry))))
  }

  /** Seeking back undoes seeking forward whenever neither was clamped. */
  lemma SeekBackUndoesForward(current: real, duration: real)
    requires current >= 0.0 && current + SeekStep <= duration
    ensures SeekBackTarget(Some(SeekForwardTarget(Some(current), Some(duration)))) == current
  {
  }

  /** The clamps of the seek keys at their boundaries. */
  lemma SeekClampExamples(duration: real)
    requires duration >= 3.0
    ensures SeekBackTarget(Some(5.0)) == 0.0
    ensures SeekForwardTarget(Some(duration - 3.0), Some(duration)) == duration
  {
  }

  // ---------------------------------------------------------------------------
  // `t`: subtitles

  /** Position of the first text track. */
  function FirstTextTrack(tracks: seq<Track>): (r: Option<nat>)
    ensures r.Some? ==> r.value < |tracks| && tracks[r.value].trackType == Text
    ensures r.Some? ==> forall j :: 0 <= j < r.value ==> tracks[j].trackType != Text
    ensures r.None? ==> forall j :: 0 <= j < |tracks| ==> tracks[j].trackType != Text
  {
    if tracks == [] then None
    else if tracks[0].trackType == Text then Some(0)
    else
      match FirstTextTrack(tracks[1..])
      case None => None
      case Some(i) => Some(i + 1)
  }

  /** `sub` is `s` with some elements left out, the rest in their order. */
  predicate IsSubsequence(sub: seq<int>, s: seq<int>)
    decreases |s|
  {
    if sub == [] then true
    else if s == [] then false
    else if sub[0] == s[0] then IsSubsequence(sub[1..], s[1..])
    else IsSubsequence(sub, s[1..])
  }

  /** `Vec::retain(|&x| x != id)`: every occurrence of `id` removed, every other
      id kept, as often as it occurs and in its order. */
  function Without(ids: seq<int>, id: int): (r: seq<int>)
    ensures id !in r
    ensures forall x :: x != id ==> multiset(r)[x] == multiset(ids)[x]
    ensures IsSubsequence(r, ids)
  {
    if ids == [] then []
    else
      assert ids == [ids[0]] + ids[1..];
      if ids[0] == id then Without(ids[1..], id)
      else [ids[0]] + Without(ids[1..], id)
  }

  /** The active-track list after `t`: the track removed (every occurrence)
      when it was active, appended at the end otherwise. */
  function ToggleTrack(ids: seq<int>, id: int): (r: seq<int>)
    ensures id in r <==> id !in ids
    ensures forall x :: x != id ==> multiset(r)[x] == multiset(ids)[x]
    ensures id in ids ==> IsSubsequence(r, ids)
    ensures id !in ids ==> r == ids + [id]
  {
    if id in ids then Without(ids, id) else ids + [id]
  }

  lemma {:induction false} WithoutAbsent(ids: seq<int>, id: int)
    requires id !in ids
    ensures Without(ids, id) == ids
  {
    if ids != [] {
      WithoutAbsent(ids[1..], id);
    }
  }

  lemma {:induction false} WithoutAppend(ids: seq<int>, id: int)
    ensures Without(ids + [id], id) == Without(ids, id)
  {
    if ids == [] {
      assert [] + [id] == [id];
    } else {
      assert (ids + [id])[1..] == ids[1..] + [id];
      WithoutAppend(ids[1..], id);
    }
  }

  /** `retain` read from the back: the last id is kept unless it is `id`. */
  lemma {:induction false} WithoutSnoc(ids: seq<int>, x: int, id: int)
    ensures Without(ids + [x], id) == Without(ids, id) + (if x == id then [] else [x])
  {
    if ids == [] {
      assert [] + [x] == [x];
      assert [x][1..] == [];
    } else {
      assert (ids + [x])[1..] == ids[1..] + [x];
      WithoutSnoc(ids[1..], x, id);
    }
  }

  /** `Vec::retain(|&x| x != id)` in place: the kept ids are moved down over
      the removed ones, in order, and the new length is returned; what lies
      beyond it is left as it was. */
  method RetainInPlace(a: array<int>, id: int) returns (len: nat)
    modifies a
    ensures len <= a.Length
    ensures a[..len] == Without(old(a[..]), id)
    ensures a[len..] == old(a[..])[len..]
  {
    ghost var orig := a[..];
    len := 0;
    var i := 0;
    while i < a.Length
      invariant len <= i <= a.Length
      invariant a[..len] == Without(orig[..i], id)
      invariant forall k :: len <= k < a.Length ==> a[k] == orig[k]
    {
      WithoutSnoc(orig[..i], orig[i], id);
      assert orig[..i + 1] == orig[..i] + [orig[i]];
      if a[i] != id {
        a[len] := a[i];
        assert a[..len + 1] == a[..len] + [orig[i]];
        len := len + 1;
      }
      i := i + 1;
    }
    assert a[len..] == orig[len..];
    assert orig[..a.Length] == orig;
  }

  /** Toggling a track that was off, then toggling it again, restores the list. */
  lemma ToggleTrackTwice(ids: seq<int>, id: int)
    requires id !in ids
    ensures ToggleTrack(ToggleTrack(ids, id), id) == ids
  {
    WithoutAppend(ids, id);
    WithoutAbsent(ids, id);
  }

  /** `t`: toggles the first text track in the first entry's active-track
      list; nothing without an entry or a text track. */
  function ToggleSubtitles(transportId: string, media: Option<seq<MediaStatusEntry>>): (r: Option<Command>)
    ensures r.Some? <==> FirstEntry(media).Some? && FirstTextTrack(FirstEntry(media).value.tracks.GetOr([])).Some?
    ensures r.Some? ==>
              var entry := FirstEntry(media).value;
              var tracks := entry.tracks.GetOr([]);
              r.value == SetActiveTracks(transportId, entry.mediaSessionId,
                                         ToggleTrack(entry.activeTrackIds.GetOr([]), tracks[FirstTextTrack(tracks).value].trackId))
  {
    match FirstEntry(media)
    case None => None
    case Some(entry) =>
      var tracks := entry.tracks.GetOr([]);
      match FirstTextTrack(tracks)
      case None => None
      case Some(i) =>
        Some(SetActiveTracks(transportId, entry.mediaSessionId,
                             ToggleTrack(entry.activeTrackIds.GetOr([]), tracks[i].trackId)))
  }

  // ---------------------------------------------------------------------------
  // `p`, `n`: queue navigation

  /** Position of the first queue item with the given id. */
  function PositionOf(items: seq<QueueItem>, id: int): (r: Option<nat>)
    ensures r.Some? ==> r.value < |items| && items[r.value].itemId == id
    ensures r.Some? ==> forall j :: 0 <= j < r.value ==> items[j].itemId != id
    ensures r.None? ==> forall j :: 0 <= j < |items| ==> items[j].itemId != id
  {
    if items == [] then None
    else if items[0].itemId == id then Some(0)
    else
      match PositionOf(items[1..], id)
      case None => None
      case Some(i) => Some(i + 1)
  }

  /** Position of the current item in the queue, when both are reported and it is found. */
  function CurrentPosition(entry: MediaStatusEntry): (r: Option<nat>)
    ensures r.Some? ==> entry.items.Some? && entry.currentItemId.Some? && r.value < |entry.items.value|
                        && entry.items.value[r.value].itemId == entry.currentItemId.value
    ensures r.Some? ==> forall j :: 0 <= j < r.value ==> entry.items.value[j].itemId != entry.currentItemId.value
    ensures r.None? ==> entry.items.None? || entry.currentItemId.None?
                        || forall j :: 0 <= j < |entry.items.value| ==> entry.items.value[j].itemId != entry.currentItemId.value
  {
    if entry.currentItemId.Some? && entry.items.Some? then PositionOf(entry.items.value, entry.currentItemId.value)
    else None
  }

  /** `p`: jumps to the item before the current one, unless it is the first. */
  function PreviousItem(transportId: string, media: Option<seq<MediaStatusEntry>>): (r: Option<Command>)
    ensures r.Some? <==> FirstEntry(media).Some? && CurrentPosition(FirstEntry(media).value).Some?
                         && CurrentPosition(FirstEntry(media).value).value > 0
    ensures r.Some? ==>
              var entry := FirstEntry(media).value;
              r.value == QueueUpdate(transportId, entry.mediaSessionId,
                                     entry.items.value[CurrentPosition(entry).value - 1].itemId)
    ensures r.Some? ==> r.value.itemId != FirstEntry(media).value.currentItemId.value
  {
    match FirstEntry(media)
    case None => None
    case Some(entry) =>
      match CurrentPosition(entry)
      case None => None
      case Some(i) =>
        if i > 0 then Some(QueueUpdate(transportId, entry.mediaSessionId, entry.items.value[i - 1].itemId))
        else None
  }

  /** `n`: jumps to the item after the current one, unless it is the last. */
  function NextItem(transportId: string, media: Option<seq<MediaStatusEntry>>): (r: Option<Command>)
    ensures r.Some? <==> FirstEntry(media).Some? && CurrentPosition(FirstEntry(media).value).Some?
                         && CurrentPosition(FirstEntry(media).value).value < |FirstEntry(media).value.items.value| - 1
    ensures r.Some? ==>
              var entry := FirstEntry(media).value;
              r.value == QueueUpdate(transportId, entry.mediaSessionId,
                                     entry.items.value[CurrentPosition(entry).value + 1].itemId)
  {
    match FirstEntry(media)
    case None => None
    case Some(entry) =>
      match CurrentPosition(entry)
      case None => None
      case Some(i) =>
        if i < |entry.items.value| - 1 then Some(QueueUpdate(transportId, entry.mediaSessionId, entry.items.value[i + 1].itemId))
        else None
  }

  // ---------------------------------------------------------------------------
  // The dispatch loop

  /** The command one key issues, given the status at that moment. */
  function KeyCommand(transportId: string, key: Key, status: DeviceStatus): (r: Option<Command>)
    ensures r.Some? ==> key in {Char(' '), Char('m'), Char('t'), Up, Down, Left, Right, Char('p'), Char('n'), Char('s')}
    ensures r.Some? ==> (r.value.SetVolume? <==> key in {Char('m'), Up, Down})
    ensures r.Some? && !r.value.SetVolume? ==> r.value.transportId == transportId
  {
    if key == Char(' ') then TogglePlayback(transportId, status.media)
    else if key == Char('m') then ToggleMute(status.receiver)
    else if key == Char('t') then ToggleSubtitles(transportId, status.media)
    else if key == Up then VolumeUp(status.receiver)
    else if key == Down then VolumeDown(status.receiver)
    else if key == Left then SeekBackward(transportId, status.media)
    else if key == Right then SeekForward(transportId, status.media)
    else if key == Char('p') then PreviousItem(transportId, status.media)
    else if key == Char('n') then NextItem(transportId, status.media)
    else if key == Char('s') then StopPlayback(transportId, status.media)
    else None
  }

  /** The commands a sequence of key presses issues: each key in turn, up to
      the first `q`. */
  function Issued(transportId: string, events: seq<(Key, DeviceStatus)>): (r: seq<Command>)
    ensures forall c :: c in r ==> c.SetVolume? || c.transportId == transportId
  {
    if events == [] || events[0].0 == Quit then []
    else AsSeq(KeyCommand(transportId, events[0].0, events[0].1)) + Issued(transportId, events[1..])
  }

  /** `t` as the loop performs it: the first entry's active-track list is
      copied into a buffer; the first text track is retained out of it in
      place when active, or pushed onto it otherwise; and the buffer's
      contents are sent. */
  method ToggleSubtitlesStep(transportId: string, media: Option<seq<MediaStatusEntry>>)
    returns (command: Option<Command>)
    ensures command == ToggleSubtitles(transportId, media)
  {
    command := None;
    if media.Some? && |media.value| > 0 {
      var entry := media.value[0];
      var ids := entry.activeTrackIds.GetOr([]);
      var tracks := entry.tracks.GetOr([]);
      var textTrack := FirstTextTrack(tracks);
      if textTrack.Some? {
        var trackId := tracks[textTrack.value].trackId;
        var activeTrackIds: seq<int>;
        if trackId in ids {
          var buffer := new int[|ids|](k requires 0 <= k < |ids| => ids[k]);
          assert buffer[..] == ids;
          var len := RetainInPlace(buffer, trackId);
          activeTrackIds := buffer[..len];
        } else {
          activeTrackIds := ids + [trackId];
        }
        command := Some(SetActiveTracks(transportId, entry.mediaSessionId, activeTrackIds));
      }
    }
  }

  /** `Issued` read from position `i`: the key there ends the session or adds
      its command in front of what the rest issue. */
  lemma IssuedFrom(transportId: string, events: seq<(Key, DeviceStatus)>, i: nat)
    requires i < |events|
    ensures Issued(transportId, events[i..])
            == if events[i].0 == Quit then []
               else AsSeq(KeyCommand(transportId, events[i].0, events[i].1)) + Issued(transportId, events[i + 1..])
  {
    assert events[i..][1..] == events[i + 1..];
  }

  /** Appending a key's command to the log keeps the log's order. */
  lemma LogThenRest(log: seq<Command>, issued: seq<Command>, rest: seq<Command>)
    ensures log + (issued + rest) == (log + issued) + rest
  {
  }

  /** The control loop: drains the key queue in order, issuing each key's
      command (whose outcome is ignored), and stops after `q`. Returns the
      commands issued and how many keys were taken off the queue. */
  method HandlePlayerControls(transportId: string, events: seq<(Key, DeviceStatus)>)
    returns (log: seq<Command>, handled: nat)
    ensures log == Issued(transportId, events)
    ensures handled <= |events|
    ensures forall j :: 0 <= j < handled && events[j].0 == Quit ==> j == handled - 1
    ensures handled < |events| ==> handled > 0 && events[handled - 1].0 == Quit
  {
    log, handled := [], 0;
    while handled < |events|
      invariant handled <= |events|
      invariant forall j :: 0 <= j < handled ==> events[j].0 != Quit
      invariant Issued(transportId, events) == log + Issued(transportId, events[handled..])
    {
      var key, status := events[handled].0, events[handled].1;
      IssuedFrom(transportId, events, handled);
      if key == Quit {
        handled := handled + 1;
        break;
      }
      var command;
      if key == Char('t') {
        command := ToggleSubtitlesStep(transportId, status.media);
      } else {
        command := KeyCommand(transportId, key, status);
      }
      var rest := Issued(transportId, events[handled + 1..]);
      LogThenRest(log, AsSeq(command), rest);
      log := log + AsSeq(command);
      handled := handled + 1;
    }
    assert handled == |events| ==> events[handled..] == [];
  }

  /** Each key issues at most one command. */
  lemma {:induction false} IssuedAtMostOnePerKey(transportId: string, events: seq<(Key, DeviceStatus)>)
    ensures |Issued(transportId, events)| <= |events|
  {
    if events != [] && events[0].0 != Quit {
      IssuedAtMostOnePerKey(transportId, events[1..]);
    }
  }

  /** Keys before a `q` are handled in order: what they issue comes first,
      then what the keys after them issue. */
  lemma {:induction false} IssuedInOrder(transportId: string, before: seq<(Key, DeviceStatus)>, after: seq<(Key, DeviceStatus)>)
    requires forall j :: 0 <= j < |before| ==> before[j].0 != Quit
    ensures Issued(transportId, before + after) == Issued(transportId, before) + Issued(transportId, after)
  {
    if before == [] {
      assert before + after == after;
    } else {
      assert (before + after)[1..] == before[1..] + after;
      IssuedInOrder(transportId, before[1..], after);
    }
  }

  /** Nothing after the first `q` is handled. */
  lemma IssuedStopsAtQuit(transportId: string, before: seq<(Key, DeviceStatus)>, status: DeviceStatus, after: seq<(Key, DeviceStatus)>)
    requires forall j :: 0 <= j < |before| ==> before[j].0 != Quit
    ensures Issued(transportId, before + [(Quit, status)] + after) == Issued(transportId, before)
  {
    assert before + [(Quit, status)] + after == before + ([(Quit, status)] + after);
    IssuedInOrder(transportId, before, [(Quit, status)] + after);
  }

  /** A key without an arm issues nothing and does not end the loop. */
  lemma UnknownKeyIgnored(transportId: string, key: Key, status: DeviceStatus, rest: seq<(Key, DeviceStatus)>)
    requires key !in {Char(' '), Char('m'), Char('t'), Char('p'), Char('n'), Char('s'), Quit, Up, Down, Left, Right}
    ensures Issued(transportId, [(key, status)] + rest) == Issued(transportId, rest)
  {
    assert ([(key, status)] + rest)[1..] == rest;
  }

  /** Keys queued as space, `m`, `q` issue the play/pause command, then the
      mute command, and nothing for what follows. */
  lemma SpaceMuteQuit(transportId: string, s1: DeviceStatus, s2: DeviceStatus, s3: DeviceStatus, rest: seq<(Key, DeviceStatus)>)
    ensures Issued(transportId, [(Char(' '), s1), (Char('m'), s2), (Quit, s3)] + rest)
            == AsSeq(TogglePlayback(transportId, s1.media)) + AsSeq(ToggleMute(s2.receiver))
  {
    var events := [(Char(' '), s1), (Char('m'), s2), (Quit, s3)] + rest;
    assert events[1..] == [(Char('m'), s2), (Quit, s3)] + rest;
    assert events[1..][1..] == [(Quit, s3)] + rest;
    assert Issued(transportId, events[1..][1..]) == [];
    assert KeyCommand(transportId, Char('m'), s2) == ToggleMute(s2.receiver);
    assert Issued(transportId, events[1..]) == AsSeq(ToggleMute(s2.receiver));
    assert KeyCommand(transportId, Char(' '), s1) == TogglePlayback(transportId, s1.media);
  }
}
