/** Choosing the receiver device among the discovered ones, and the media
    descriptor sent with the load request. */
module Chromecast {
  import opened Wrappers
  import opened Text
  import opened Settings

  /** A discovered receiver: its full service name, the string forms of its
      addresses, and its port. */
  datatype Device = Device(fullname: string, addresses: set<string>, port: nat)

  datatype SelectError =
    | AddressNotFound(address: string)
    | NameNotFound(name: string)
    | NoDevicesFound

  function Message(e: SelectError): string {
    match e
    case AddressNotFound(a) => "Device with address " + a + " not found"
    case NameNotFound(n) => "Device with name " + n + " not found"
    case NoDevicesFound => "No Chromecast devices found"
  }

  /** Where the messages differ: the first letter, and the letter after "Device with ". */
  lemma MessageShape(e: SelectError)
    ensures e.NoDevicesFound? ==> Message(e)[0] == 'N'
    ensures !e.NoDevicesFound? ==> |Message(e)| > 12 && Message(e)[0] == 'D'
                                    && Message(e)[12] == (if e.AddressNotFound? then 'a' else 'n')
  {
  }

  /** The message tells the errors apart, hint included. */
  lemma MessageIdentifiesError(e1: SelectError, e2: SelectError)
    requires Message(e1) == Message(e2)
    ensures e1 == e2
  {
    MessageShape(e1);
    MessageShape(e2);
    var m, suffix := Message(e1), " not found";
    if e1.AddressNotFound? && e2.AddressNotFound? {
      var prefix := "Device with address ";
      assert m == prefix + e1.address + suffix == prefix + e2.address + suffix;
      assert e1.address == m[|prefix|..|m| - |suffix|] == e2.address;
    } else if e1.NameNotFound? && e2.NameNotFound? {
      var prefix := "Device with name ";
      assert m == prefix + e1.name + suffix == prefix + e2.name + suffix;
      assert e1.name == m[|prefix|..|m| - |suffix|] == e2.name;
    }
  }

  /** The result of a selection: a device, an error, or (when the user's input
      ran out before a valid number was given) still waiting at the prompt. */
  datatype Selection = Selected(device: Device) | Failed(error: SelectError) | AwaitingInput

  /** A `usize` is 64 bits wide. */
  const UsizeLimit: nat := 0x1_0000_0000_0000_0000

  /** Position of the first device having an address whose string form is `address`. */
  function FindByAddress(devices: seq<Device>, address: string): (r: Option<nat>)
    ensures r.Some? ==> r.value < |devices| && address in devices[r.value].addresses
    ensures r.Some? ==> forall j :: 0 <= j < r.value ==> address !in devices[j].addresses
    ensures r.None? ==> forall j :: 0 <= j < |devices| ==> address !in devices[j].addresses
  {
    if devices == [] then None
    else if address in devices[0].addresses then Some(0)
    else
      match FindByAddress(devices[1..], address)
      case None => None
      case Some(i) => Some(i + 1)
  }

  /** Position of the first device whose full name starts with `name` (case-sensitive). */
  function FindByName(devices: seq<Device>, name: string): (r: Option<nat>)
    ensures r.Some? ==> r.value < |devices| && name <= devices[r.value].fullname
    ensures r.Some? ==> forall j :: 0 <= j < r.value ==> !(name <= devices[j].fullname)
    ensures r.None? ==> forall j :: 0 <= j < |devices| ==> !(name <= devices[j].fullname)
  {
    if devices == [] then None
    else if name <= devices[0].fullname then Some(0)
    else
      match FindByName(devices[1..], name)
      case None => None
      case Some(i) => Some(i + 1)
  }

  /** One line typed at the prompt: accepted when, once trimmed, it is an
      unsigned number `n` with `1 <= n <= count`, which chooses position `n - 1`. */
  function ParseChoice(line: string, count: nat): (r: Option<nat>)
    ensures r.Some? ==> r.value < count && ParseUnsigned(Trim(line), UsizeLimit) == Some(r.value + 1)
    ensures r.None? ==> forall n :: ParseUnsigned(Trim(line), UsizeLimit) == Some(n) ==> n == 0 || n > count
  {
    match ParseUnsigned(Trim(line), UsizeLimit)
    case Some(n) => if 0 < n <= count then Some(n - 1) else None
    case None => None
  }

  /** The prompt: reads lines until one is a valid choice; there is no retry
      limit, so when the lines run out no choice has been made. */
  method PromptForDevice(count: nat, input: seq<string>) returns (choice: Option<nat>, linesRead: nat)
    ensures linesRead <= |input|
    ensures forall j :: 0 <= j < linesRead - 1 ==> ParseChoice(input[j], count).None?
    ensures choice.Some? ==> linesRead > 0 && choice == ParseChoice(input[linesRead - 1], count)
    ensures choice.None? ==> linesRead == |input| && forall j :: 0 <= j < |input| ==> ParseChoice(input[j], count).None?
  {
    choice, linesRead := None, 0;
    while choice.None? && linesRead < |input|
      invariant linesRead <= |input|
      invariant forall j :: 0 <= j < linesRead - 1 ==> ParseChoice(input[j], count).None?
      invariant choice.None? ==> forall j :: 0 <= j < linesRead ==> ParseChoice(input[j], count).None?
      invariant choice.Some? ==> linesRead > 0 && choice == ParseChoice(input[linesRead - 1], count)
    {
      choice := ParseChoice(input[linesRead], count);
      linesRead := linesRead + 1;
    }
  }

  /** Resolution order: the address hint (exact match, and its failure is
      final), then the name hint (prefix match), then a single device, then
      no device, and otherwise the prompt. */
  method SelectDevice(settings: Settings, devices: seq<Device>, input: seq<string>)
    returns (r: Selection, linesRead: nat)
    ensures r.Selected? ==> r.device in devices
    ensures linesRead <= |input|
    ensures linesRead > 0 ==> settings.address.None? && settings.device.None? && |devices| >= 2
    ensures settings.address.Some? ==>
              match FindByAddress(devices, settings.address.value)
              case Some(i) => r == Selected(devices[i])
              case None => r == Failed(AddressNotFound(settings.address.value))
    ensures settings.address.None? && settings.device.Some? ==>
              match FindByName(devices, settings.device.value)
              case Some(i) => r == Selected(devices[i])
              case None => r == Failed(NameNotFound(settings.device.value))
    ensures settings.address.None? && settings.device.None? && |devices| == 1 ==> r == Selected(devices[0])
    ensures settings.address.None? && settings.device.None? && |devices| == 0 ==> r == Failed(NoDevicesFound)
    ensures settings.address.None? && settings.device.None? && |devices| >= 2 ==>
              && !r.Failed?
              && (r.Selected? ==> linesRead > 0 && ParseChoice(input[linesRead - 1], |devices|).Some?
                                   && r.device == devices[ParseChoice(input[linesRead - 1], |devices|).value])
              && (forall j :: 0 <= j < linesRead - 1 ==> ParseChoice(input[j], |devices|).None?)
              && (r.AwaitingInput? ==> linesRead == |input| && forall j :: 0 <= j < |input| ==> ParseChoice(input[j], |devices|).None?)
  {
    linesRead := 0;
    if settings.address.Some? {
      match FindByAddress(devices, settings.address.value)
      case Some(i) => return Selected(devices[i]), 0;
      case None => return Failed(AddressNotFound(settings.address.value)), 0;
    }
    if settings.device.Some? {
      match FindByName(devices, settings.device.value)
      case Some(i) => return Selected(devices[i]), 0;
      case None => return Failed(NameNotFound(settings.device.value)), 0;
    }
    if |devices| == 1 {
      return Selected(devices[0]), 0;
    }
    if |devices| == 0 {
      return Failed(NoDevicesFound), 0;
    }
    var choice;
    choice, linesRead := PromptForDevice(|devices|, input);
    if choice.Some? {
      r := Selected(devices[choice.value]);
    } else {
      r := AwaitingInput;
    }
  }

  datatype StreamType = NoStreamType | Buffered | Live

  /** Descriptive metadata of a media item; the program never sends any. */
  datatype MediaMetadata = MediaMetadata(title: Option<string>)

  datatype Media = Media(
    contentId: string,
    contentType: string,
    streamType: StreamType,
    duration: Option<real>,
    metadata: Option<MediaMetadata>
  )

  const DefaultContentType := "video/mp4"

  /** The descriptor sent with the load request. The program unwraps the
      media path, so it must be set. */
  function MediaDescriptor(settings: Settings): (m: Media)
    requires settings.mediaPath.Some?
    ensures m.contentId == settings.mediaPath.value
    ensures settings.mediaType.Some? ==> m.contentType == settings.mediaType.value
    ensures settings.mediaType.None? ==> m.contentType == DefaultContentType
    ensures m.streamType == Buffered && m.duration.None? && m.metadata.None?
  {
    Media(settings.mediaPath.value, settings.mediaType.GetOr(DefaultContentType), Buffered, None, None)
  }

  /** Name matching is by prefix: "LivingRoom" picks "LivingRoom-TV-1234". */
  lemma NameHintIsPrefix()
    ensures var d := Device("LivingRoom-TV-1234", {"192.168.1.5"}, 8009);
            FindByName([d], "LivingRoom") == Some(0)
  {
  }
}
