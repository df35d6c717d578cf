// The DriverKit user client of the Ploytec driver: the app's calls into the
// driver arrive as selectors with scalar and structure arguments, and MIDI
// from the hardware goes back to the app as an asynchronous completion.
module DriverUserClient {
  import opened Wrappers

  /** The selectors ExternalMethod dispatches on; anything else goes to the superclass. */
  datatype Selector =
    | Open | Close | GetDeviceName | GetDeviceManufacturer | GetFirmwareVer | GetPlaybackStats
    | SetCurrentUrbCount | GetCurrentUrbCount | SetFrameCount
    | GetCurrentInputFramesCount | GetCurrentOutputFramesCount
    | RegisterForMIDINotification | SendMIDI
    | OtherSelector(code: int)

  /** The kern_return_t values this file produces, and any other from the calls it makes. */
  datatype Status = Success | NoResources | NotAttached | BadArgument | OtherStatus(code: int)

  /** An asynchronous completion action handed over by the app, by identity. */
  type ActionId = int

  /** IOUserClientMethodArguments as far as this file reads them. */
  datatype MethodArguments = MethodArguments(
    scalarInput: seq<bv64>,
    scalarOutputCount: nat,
    completion: Option<ActionId>)

  /** What the provider (PloytecDriver) answers to the getters. */
  datatype ProviderView = ProviderView(
    deviceName: seq<bv8>,
    manufacturer: seq<bv8>,
    firmware: seq<bv8>,
    stats: seq<bv8>,
    statsStatus: Status,
    urbCount: bv64,
    inputFrames: bv64,
    outputFrames: bv64)

  /** The calls into the provider that change it. */
  datatype ProviderCall =
    | SetUrbCount(count: bv8)
    | SetFrames(inputFrames: bv16, outputFrames: bv16)
    | WriteMIDIBytes(word: bv64)

  /** One delivered AsyncCompletion. */
  datatype Completion = Completion(action: ActionId, status: Status, args: seq<bv64>)

  /** What ExternalMethod hands back besides its status. */
  datatype Reply = Reply(status: Status, scalarOutput: Option<bv64>, structureOutput: Option<seq<bv8>>)

  /** The input frame count of SetFrameCount's word: bits 0-15. */
  function InputFrames(packed: bv64): (r: bv16)
    ensures r as bv64 == packed & 0xFFFF
  {
    (packed & 0xFFFF) as bv16
  }

  /** The output frame count of SetFrameCount's word: bits 32-47. */
  function OutputFrames(packed: bv64): (r: bv16)
    ensures r as bv64 == (packed >> 32) & 0xFFFF
  {
    ((packed >> 32) & 0xFFFF) as bv16
  }

  /** Bits 16-31 and 48-63 of the frame-count word are never read. */
  lemma FrameCountIgnoresOtherBits(w1: bv64, w2: bv64)
    requires w1 & 0x0000_FFFF_0000_FFFF == w2 & 0x0000_FFFF_0000_FFFF
    ensures InputFrames(w1) == InputFrames(w2) && OutputFrames(w1) == OutputFrames(w2)
  {
    assert w1 & 0xFFFF == w2 & 0xFFFF by {
      assert w1 & 0xFFFF == (w1 & 0x0000_FFFF_0000_FFFF) & 0xFFFF;
      assert w2 & 0xFFFF == (w2 & 0x0000_FFFF_0000_FFFF) & 0xFFFF;
    }
    assert (w1 >> 32) & 0xFFFF == (w2 >> 32) & 0xFFFF by {
      assert (w1 >> 32) & 0xFFFF == ((w1 & 0x0000_FFFF_0000_FFFF) >> 32) & 0xFFFF;
      assert (w2 >> 32) & 0xFFFF == ((w2 & 0x0000_FFFF_0000_FFFF) >> 32) & 0xFFFF;
    }
  }

  /** A word built from two 16-bit counts, the input low and the output at bit 32, unpacks to them. */
  lemma FrameCountRoundTrip(inputFrames: bv64, outputFrames: bv64)
    requires inputFrames < 0x1_0000 && outputFrames < 0x1_0000
    ensures InputFrames(inputFrames | (outputFrames << 32)) as bv64 == inputFrames
    ensures OutputFrames(inputFrames | (outputFrames << 32)) as bv64 == outputFrames
  {}

  /** The byte `*reinterpret_cast<const uint8_t*>(scalarInput)` reads on a little-endian host. */
  function LowByte(w: bv64): (r: bv8)
    ensures r as bv64 == w & 0xFF
  {
    (w & 0xFF) as bv8
  }

  /** The selectors that read scalarInput[0]. */
  predicate NeedsScalarInput(s: Selector)
  {
    s == SetCurrentUrbCount || s == SetFrameCount || s == SendMIDI
  }

  /** The selectors that write scalarOutput[0]. */
  predicate NeedsScalarOutput(s: Selector)
  {
    s == GetCurrentUrbCount || s == GetCurrentInputFramesCount || s == GetCurrentOutputFramesCount
  }

  /**
   * The selectors of ExternalMethod that only read: the getters answer from
   * the provider, a scalar getter needs room for one scalar, and an unknown
   * selector gets the superclass's answer.
   */
  function Query(selector: Selector, args: MethodArguments, provider: ProviderView, superStatus: Status): (r: Reply)
    requires !NeedsScalarInput(selector) && selector != RegisterForMIDINotification
    ensures selector == Open || selector == Close ==> r == Reply(Success, None, None)
    ensures NeedsScalarOutput(selector) ==>
      r.status == (if args.scalarOutputCount < 1 then BadArgument else Success)
      && (r.scalarOutput.Some? <==> args.scalarOutputCount >= 1) && r.structureOutput.None?
    ensures selector == GetCurrentUrbCount && args.scalarOutputCount >= 1 ==> r.scalarOutput == Some(provider.urbCount)
    ensures selector == GetCurrentInputFramesCount && args.scalarOutputCount >= 1 ==> r.scalarOutput == Some(provider.inputFrames)
    ensures selector == GetCurrentOutputFramesCount && args.scalarOutputCount >= 1 ==> r.scalarOutput == Some(provider.outputFrames)
    ensures selector == GetPlaybackStats ==> r == Reply(provider.statsStatus, None, Some(provider.stats))
    ensures selector == GetDeviceName ==> r == Reply(Success, None, Some(provider.deviceName))
    ensures selector == GetDeviceManufacturer ==> r == Reply(Success, None, Some(provider.manufacturer))
    ensures selector == GetFirmwareVer ==>
      r.status == Success && r.structureOutput.Some? && |r.structureOutput.value| <= 3
      && (|provider.firmware| >= 3 ==> r.structureOutput.value == provider.firmware[..3])
    ensures selector.OtherSelector? ==> r == Reply(superStatus, None, None)
  {
    match selector
    case GetDeviceName => Reply(Success, None, Some(provider.deviceName))
    case GetDeviceManufacturer => Reply(Success, None, Some(provider.manufacturer))
    // three bytes of the FirmwareVersion struct
    case GetFirmwareVer =>
      Reply(Success, None, Some(if |provider.firmware| >= 3 then provider.firmware[..3] else provider.firmware))
    case GetPlaybackStats => Reply(provider.statsStatus, None, Some(provider.stats))
    case GetCurrentUrbCount =>
      if args.scalarOutputCount < 1 then Reply(BadArgument, None, None) else Reply(Success, Some(provider.urbCount), None)
    case GetCurrentInputFramesCount =>
      if args.scalarOutputCount < 1 then Reply(BadArgument, None, None) else Reply(Success, Some(provider.inputFrames), None)
    case GetCurrentOutputFramesCount =>
      if args.scalarOutputCount < 1 then Reply(BadArgument, None, None) else Reply(Success, Some(provider.outputFrames), None)
    case OtherSelector(_) => Reply(superStatus, None, None)
    case _ => Reply(Success, None, None)
  }

  /** PloytecDriverUserClient with its ivars. */
  class PloytecDriverUserClient {
    /** `ivars != nullptr`. */
    var ivarsPresent: bool
    /** `ivars->mProvider` is set. */
    var providerAttached: bool
    /** `ivars->midiNotificationAction`: at most one action is held. */
    var midiNotificationAction: Option<ActionId>
    /** Reference-count operations on actions, in order. */
    var retained: seq<ActionId>
    var released: seq<ActionId>
    /** Calls that change the provider, in order. */
    var providerCalls: seq<ProviderCall>
    /** Completions delivered to the app, in order. */
    var completions: seq<Completion>

    /** init: zeroed ivars, so no provider and no action yet. */
    constructor ()
      ensures ivarsPresent && !providerAttached && midiNotificationAction == None
      ensures retained == [] && released == [] && providerCalls == [] && completions == []
    {
      ivarsPresent := true;
      providerAttached := false;
      midiNotificationAction := None;
      retained := [];
      released := [];
      providerCalls := [];
      completions := [];
    }

    /**
     * ExternalMethod: refuses without ivars or provider, then dispatches.
     * `superStatus` is what the superclass answers for an unknown selector.
     */
    method ExternalMethod(selector: Selector, args: MethodArguments, provider: ProviderView, superStatus: Status)
      returns (reply: Reply)
      modifies this`providerCalls, this`midiNotificationAction, this`retained, this`released
      ensures !ivarsPresent ==> reply == Reply(NoResources, None, None)
      ensures ivarsPresent && !providerAttached ==> reply == Reply(NotAttached, None, None)
      ensures !(ivarsPresent && providerAttached) || (NeedsScalarInput(selector) && args.scalarInput == []) ==>
        providerCalls == old(providerCalls)
      ensures ivarsPresent && providerAttached && NeedsScalarInput(selector) && args.scalarInput == [] ==>
        reply.status == BadArgument
      ensures ivarsPresent && providerAttached && !NeedsScalarInput(selector) && selector != RegisterForMIDINotification ==>
        reply == Query(selector, args, provider, superStatus)
      ensures ivarsPresent && providerAttached && selector == SetFrameCount && args.scalarInput != [] ==>
        reply.status == Success
        && providerCalls == old(providerCalls) + [SetFrames(InputFrames(args.scalarInput[0]), OutputFrames(args.scalarInput[0]))]
      ensures ivarsPresent && providerAttached && selector == SetCurrentUrbCount && args.scalarInput != [] ==>
        reply.status == Success
        && providerCalls == old(providerCalls) + [SetUrbCount(LowByte(args.scalarInput[0]))]
      ensures ivarsPresent && providerAttached && selector == SendMIDI && args.scalarInput != [] ==>
        reply.status == Success
        && providerCalls == old(providerCalls) + [WriteMIDIBytes(args.scalarInput[0])]
      ensures selector != RegisterForMIDINotification || !(ivarsPresent && providerAttached) ==>
        midiNotificationAction == old(midiNotificationAction)
        && retained == old(retained) && released == old(released)
      ensures selector == RegisterForMIDINotification && ivarsPresent && providerAttached ==>
        RegisteredAs(args.completion, reply.status, old(midiNotificationAction), old(retained), old(released))
      ensures selector != SetCurrentUrbCount && selector != SetFrameCount && selector != SendMIDI ==>
        providerCalls == old(providerCalls)
    {
      if !ivarsPresent {
        return Reply(NoResources, None, None);
      }
      if !providerAttached {
        return Reply(NotAttached, None, None);
      }
      if selector == SetCurrentUrbCount || selector == SetFrameCount {
        reply := SetterCall(selector, args);
      } else if selector == RegisterForMIDINotification {
        var status := RegisterForMIDINotificationImpl(args.completion);
        reply := Reply(status, None, None);
      } else if selector == SendMIDI {
        var status := SendMidi(args);
        reply := Reply(status, None, None);
      } else {
        reply := Query(selector, args, provider, superStatus);
      }
    }

    /** SetCurrentUrbCount and SetFrameCount: decode scalarInput[0] and pass it to the provider. */
    method SetterCall(selector: Selector, args: MethodArguments) returns (reply: Reply)
      requires selector == SetCurrentUrbCount || selector == SetFrameCount
      modifies this`providerCalls
      ensures args.scalarInput == [] ==> reply == Reply(BadArgument, None, None) && providerCalls == old(providerCalls)
      ensures args.scalarInput != [] ==> reply == Reply(Success, None, None)
      ensures args.scalarInput != [] && selector == SetFrameCount ==>
        providerCalls == old(providerCalls) + [SetFrames(InputFrames(args.scalarInput[0]), OutputFrames(args.scalarInput[0]))]
      ensures args.scalarInput != [] && selector == SetCurrentUrbCount ==>
        providerCalls == old(providerCalls) + [SetUrbCount(LowByte(args.scalarInput[0]))]
    {
      if |args.scalarInput| < 1 {
        return Reply(BadArgument, None, None);
      }
      var packed := args.scalarInput[0];
      if selector == SetCurrentUrbCount {
        providerCalls := providerCalls + [SetUrbCount(LowByte(packed))];
      } else {
        providerCalls := providerCalls + [SetFrames(InputFrames(packed), OutputFrames(packed))];
      }
      reply := Reply(Success, None, None);
    }

    /** The outcome of a registration, relative to the state before it. */
    ghost predicate RegisteredAs(completion: Option<ActionId>, status: Status,
                                 oldAction: Option<ActionId>, oldRetained: seq<ActionId>, oldReleased: seq<ActionId>)
      reads this
    {
      if completion.None? then
        status == BadArgument && midiNotificationAction == oldAction
        && retained == oldRetained && released == oldReleased
      else
        status == Success && midiNotificationAction == completion
        && retained == oldRetained + [completion.value]
        && released == oldReleased + (if oldAction.Some? then [oldAction.value] else [])
    }

    /**
     * RegisterForMIDINotification_Impl: without a completion nothing
     * changes; otherwise the held action is released and replaced by the
     * new one, which is retained.
     */
    method RegisterForMIDINotificationImpl(completion: Option<ActionId>) returns (status: Status)
      modifies this`midiNotificationAction, this`retained, this`released
      ensures RegisteredAs(completion, status, old(midiNotificationAction), old(retained), old(released))
    {
      if completion.None? {
        return BadArgument;
      }
      if midiNotificationAction.Some? {
        released := released + [midiNotificationAction.value];
      }
      midiNotificationAction := completion;
      retained := retained + [completion.value];
      return Success;
    }

    /** postMIDIMessage: one completion with exactly the message as its only argument. */
    method PostMIDIMessage(msg: bv64) returns (status: Status)
      modifies this`completions
      ensures !ivarsPresent || midiNotificationAction.None? ==>
        status == NoResources && completions == old(completions)
      ensures ivarsPresent && midiNotificationAction.Some? ==>
        status == Success
        && completions == old(completions) + [Completion(midiNotificationAction.value, Success, [msg])]
    {
      if !ivarsPresent || midiNotificationAction.None? {
        return NoResources;
      }
      completions := completions + [Completion(midiNotificationAction.value, Success, [msg])];
      return Success;
    }

    /** SendMIDI: scalarInput[0] goes to the provider unchanged. */
    method SendMidi(args: MethodArguments) returns (status: Status)
      modifies this`providerCalls
      ensures !(ivarsPresent && providerAttached) ==> status == NotAttached && providerCalls == old(providerCalls)
      ensures ivarsPresent && providerAttached && args.scalarInput == [] ==>
        status == BadArgument && providerCalls == old(providerCalls)
      ensures ivarsPresent && providerAttached && args.scalarInput != [] ==>
        status == Success && providerCalls == old(providerCalls) + [WriteMIDIBytes(args.scalarInput[0])]
    {
      if !ivarsPresent || !providerAttached {
        return NotAttached;
      }
      if |args.scalarInput| < 1 {
        return BadArgument;
      }
      providerCalls := providerCalls + [WriteMIDIBytes(args.scalarInput[0])];
      return Success;
    }
  }
}
