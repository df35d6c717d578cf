// The OzzyKext backend of the macOS engine: GetRegistryString, the bounded,
// NUL-terminated copy of a registry string into a fixed field of the
// shared memory, and ConfigureHardware, which claims the interfaces a
// device profile names and fills the pipe pool in role order.
module OzzyKext {
  import opened Wrappers
  import opened SampleRate

  /** kMaxInterfaces and kMaxPipes: the sizes of the interface and pipe pools. */
  const MaxInterfaces: nat := 4
  const MaxPipes: nat := 16
  /** The C string terminator. */
  const Nul: byte := 0

  // ------------------------------------------------------ registry strings

  /** What copyProperty finds under a key: nothing, a non-string object, or a string (whose C text may be missing). */
  datatype Property = Absent | NotString | Text(cstr: Option<seq<byte>>)

  /** The characters of a C string before its terminator. */
  predicate NoNul(s: seq<byte>)
  {
    forall k :: 0 <= k < |s| ==> s[k] != Nul
  }

  function Min(a: nat, b: nat): nat
  {
    if a <= b then a else b
  }

  /**
   * The bytes GetRegistryString writes from the start of dest (maxLen > 0):
   * the first min(strlen, maxLen - 1) characters of the string, then NUL;
   * just NUL when there is no string.
   */
  function Copied(prop: Property, maxLen: nat): (r: seq<byte>)
    requires maxLen > 0
    requires prop.Text? && prop.cstr.Some? ==> NoNul(prop.cstr.value)
    ensures 1 <= |r| <= maxLen && r[|r| - 1] == Nul && NoNul(r[..|r| - 1])
    ensures prop.Text? && prop.cstr.Some? ==>
      r[..|r| - 1] == prop.cstr.value[..Min(|prop.cstr.value|, maxLen - 1)]
    ensures !(prop.Text? && prop.cstr.Some?) ==> r == [Nul]
  {
    if prop.Text? && prop.cstr.Some? then
      var s := prop.cstr.value;
      var r := s[..Min(|s|, maxLen - 1)] + [Nul];
      assert r[..|r| - 1] == s[..Min(|s|, maxLen - 1)];
      r
    else [Nul]
  }

  /** The C string a byte field holds: everything before the first NUL. */
  function CString(field: seq<byte>): (r: seq<byte>)
    ensures |r| <= |field| && NoNul(r) && r == field[..|r|]
    ensures |r| < |field| ==> field[|r|] == Nul
  {
    if field == [] || field[0] == Nul then [] else [field[0]] + CString(field[1..])
  }

  /** Whatever followed in the field, a terminated prefix reads back as itself. */
  lemma {:induction false} CStringOfTerminated(s: seq<byte>, rest: seq<byte>)
    requires NoNul(s)
    ensures CString(s + [Nul] + rest) == s
    decreases |s|
  {
    if s != [] {
      assert (s + [Nul] + rest)[1..] == s[1..] + [Nul] + rest;
      CStringOfTerminated(s[1..], rest);
    }
  }

  /**
   * Reading the field back after GetRegistryString: the string truncated
   * to maxLen - 1 characters, or "" without a string.
   */
  lemma ReadBack(prop: Property, maxLen: nat, rest: seq<byte>)
    requires maxLen > 0
    requires prop.Text? && prop.cstr.Some? ==> NoNul(prop.cstr.value)
    ensures CString(Copied(prop, maxLen) + rest) ==
      if prop.Text? && prop.cstr.Some? then prop.cstr.value[..Min(|prop.cstr.value|, maxLen - 1)] else []
  {
    var c := Copied(prop, maxLen);
    assert c == c[..|c| - 1] + [Nul];
    CStringOfTerminated(c[..|c| - 1], rest);
  }

  /**
   * GetRegistryString: nothing is written without a service, without a
   * destination or for maxLen 0; otherwise dest[0] is cleared first and
   * the string, if there is one, is copied up to maxLen - 1 characters and
   * terminated.
   */
  method GetRegistryString(service: bool, prop: Property, dest: array?<byte>, maxLen: nat)
    requires dest != null ==> maxLen <= dest.Length
    requires prop.Text? && prop.cstr.Some? ==> NoNul(prop.cstr.value)
    modifies dest
    ensures !service || dest == null || maxLen == 0 ==> dest == null || dest[..] == old(dest[..])
    ensures service && dest != null && maxLen > 0 ==>
      dest[..] == Copied(prop, maxLen) + old(dest[..])[|Copied(prop, maxLen)|..]
  {
    if !service || dest == null || maxLen == 0 {
      return;
    }
    dest[0] := Nul;
    if prop.Text? && prop.cstr.Some? {
      CopyText(prop.cstr.value, dest, maxLen);
    }
  }

  /** The copy loop: characters until the terminator or maxLen - 1 of them, then NUL. */
  method CopyText(cstr: seq<byte>, dest: array<byte>, maxLen: nat)
    requires 0 < maxLen <= dest.Length && NoNul(cstr)
    modifies dest
    ensures dest[..] == cstr[..Min(|cstr|, maxLen - 1)] + [Nul] + old(dest[..])[Min(|cstr|, maxLen - 1) + 1..]
  {
    ghost var base := dest[..];
    var len := 0;
    while len < |cstr| && len < maxLen - 1
      invariant len <= Min(|cstr|, maxLen - 1)
      invariant forall j :: 0 <= j < len ==> dest[j] == cstr[j]
      invariant forall j :: len <= j < dest.Length ==> dest[j] == base[j]
    {
      dest[len] := cstr[len];
      len := len + 1;
    }
    dest[len] := Nul;
    assert dest[..] == cstr[..len] + [Nul] + base[len + 1..];
  }

  // ------------------------------------------------------ ConfigureHardware

  /** OzzyPipeConfig: an endpoint address (0 for unused) and the interface that owns it. */
  datatype PipeConfig = PipeConfig(address: byte, interfaceIndex: byte)

  /** OzzyDeviceProfile: the interfaces to claim and the three pipe roles. */
  datatype Profile = Profile(interfaceCount: nat, interfaceIndices: seq<byte>,
                             pcmOut: PipeConfig, pcmIn: PipeConfig, midiIn: PipeConfig)
  {
    predicate WellFormed()
    {
      |interfaceIndices| == MaxInterfaces && interfaceCount <= MaxInterfaces
    }

    /** The roles in the order the pipe loop takes them. */
    function Roles(): (r: seq<PipeConfig>)
      ensures |r| == 3
    {
      [pcmOut, pcmIn, midiIn]
    }
  }

  /**
   * A child of the device in the IOService plane: something that is not an
   * interface (or has no descriptor), or an interface with its number and
   * whether opening it succeeds.
   */
  datatype Child = Other | Interface(number: byte, opens: bool)

  /** A pipe of the pool: its endpoint address and the child whose interface it came from. */
  datatype Pipe = Pipe(address: byte, owner: nat)

  /** The first child among `children` that is interface `number` and opens. */
  function FirstOpened(children: seq<Child>, number: byte): (r: Option<nat>)
    ensures r.Some? ==>
      r.value < |children| && children[r.value] == Interface(number, true)
      && forall j :: 0 <= j < r.value ==> children[j] != Interface(number, true)
    ensures r.None? ==> forall j :: 0 <= j < |children| ==> children[j] != Interface(number, true)
    decreases |children|
  {
    if children == [] then None
    else
      var p := FirstOpened(children[..|children| - 1], number);
      if p.Some? then p
      else if children[|children| - 1] == Interface(number, true) then Some(|children| - 1)
      else None
  }

  /** Scanning one more child changes a slot's claim only when the slot is still empty. */
  lemma FirstOpenedSnoc(children: seq<Child>, c: Child, number: byte)
    ensures FirstOpened(children + [c], number) ==
      if FirstOpened(children, number).Some? then FirstOpened(children, number)
      else if c == Interface(number, true) then Some(|children|)
      else None
  {
    assert (children + [c])[..|children|] == children;
  }

  /** How many of the first n interface slots are claimed. */
  function Claimed(slots: seq<Option<nat>>, n: nat): (c: nat)
    requires n <= |slots|
    ensures c <= n
  {
    if n == 0 then 0 else Claimed(slots, n - 1) + (if slots[n - 1].Some? then 1 else 0)
  }

  /** With every slot empty nothing is claimed. */
  lemma {:induction false} ClaimedNone(slots: seq<Option<nat>>, n: nat)
    requires n <= |slots| && forall i :: 0 <= i < n ==> slots[i].None?
    ensures Claimed(slots, n) == 0
  {
    if n > 0 {
      ClaimedNone(slots, n - 1);
    }
  }

  /** Claiming an empty slot below n raises the count by one. */
  lemma {:induction false} ClaimOne(slots: seq<Option<nat>>, n: nat, i: nat, v: nat)
    requires i < n <= |slots| && slots[i].None?
    ensures Claimed(slots[i := Some(v)], n) == Claimed(slots, n) + 1
  {
    if n - 1 != i {
      ClaimOne(slots, n - 1, i, v);
    } else {
      ClaimedUnchanged(slots, slots[i := Some(v)], i);
    }
  }

  /** The count only looks at the first n slots. */
  lemma {:induction false} ClaimedUnchanged(a: seq<Option<nat>>, b: seq<Option<nat>>, n: nat)
    requires n <= |a| && n <= |b| && a[..n] == b[..n]
    ensures Claimed(a, n) == Claimed(b, n)
  {
    if n > 0 {
      assert a[n - 1] == a[..n][n - 1] && b[n - 1] == b[..n][n - 1];
      assert a[..n - 1] == a[..n][..n - 1] && b[..n - 1] == b[..n][..n - 1];
      ClaimedUnchanged(a, b, n - 1);
    }
  }

  /** All n slots are claimed exactly when the count reaches n. */
  lemma {:induction false} ClaimedAll(slots: seq<Option<nat>>, n: nat)
    requires n <= |slots|
    ensures Claimed(slots, n) == n <==> forall i :: 0 <= i < n ==> slots[i].Some?
  {
    if n > 0 {
      ClaimedAll(slots, n - 1);
    }
  }

  /** The first profile slot from i on (below n) that names interface `index`. */
  function SlotFrom(indices: seq<byte>, index: byte, i: nat, n: nat): (r: Option<nat>)
    requires n <= |indices|
    ensures r.Some? ==> (i <= r.value < n && indices[r.value] == index
      && forall s :: i <= s < r.value ==> indices[s] != index)
    ensures r.None? ==> forall s :: i <= s < n ==> indices[s] != index
    decreases n - i
  {
    if i >= n then None
    else if indices[i] == index then Some(i)
    else SlotFrom(indices, index, i + 1, n)
  }

  /** The interface a pipe role is taken from: the claim of the first slot naming its interface. */
  function Target(profile: Profile, slots: seq<Option<nat>>, index: byte): (r: Option<nat>)
    requires profile.WellFormed() && |slots| == MaxInterfaces
    ensures r.Some? ==>
      exists s :: (0 <= s < profile.interfaceCount && profile.interfaceIndices[s] == index
        && slots[s] == r && forall t :: 0 <= t < s ==> profile.interfaceIndices[t] != index)
    ensures (forall s :: 0 <= s < profile.interfaceCount ==> profile.interfaceIndices[s] != index) ==> r.None?
  {
    var s := SlotFrom(profile.interfaceIndices, index, 0, profile.interfaceCount);
    if s.Some? then slots[s.value] else None
  }

  /**
   * The pipes the loop opens from the first k roles, in role order: a role
   * with address 0 is skipped, and so is one whose interface was not
   * claimed or whose pipe the interface does not hand out (`copies[k]`).
   */
  function Opened(profile: Profile, slots: seq<Option<nat>>, copies: seq<bool>, k: nat): (r: seq<Pipe>)
    requires profile.WellFormed() && |slots| == MaxInterfaces && k <= 3 && |copies| == 3
    ensures |r| <= k
    ensures forall p :: 0 <= p < |r| ==> r[p].address != 0
  {
    if k == 0 then []
    else
      var cfg := profile.Roles()[k - 1];
      var t := Target(profile, slots, cfg.interfaceIndex);
      Opened(profile, slots, copies, k - 1)
        + (if cfg.address != 0 && t.Some? && copies[k - 1] then [Pipe(cfg.address, t.value)] else [])
  }

  /** With every role in use and available, the pool is pcmOut, pcmIn, midiIn. */
  lemma AllRolesInOrder(profile: Profile, slots: seq<Option<nat>>, copies: seq<bool>)
    requires profile.WellFormed() && |slots| == MaxInterfaces && copies == [true, true, true]
    requires forall k :: 0 <= k < 3 ==>
      profile.Roles()[k].address != 0 && Target(profile, slots, profile.Roles()[k].interfaceIndex).Some?
    ensures |Opened(profile, slots, copies, 3)| == 3
    ensures Opened(profile, slots, copies, 3)[0].address == profile.pcmOut.address
    ensures Opened(profile, slots, copies, 3)[1].address == profile.pcmIn.address
    ensures Opened(profile, slots, copies, 3)[2].address == profile.midiIn.address
  {
    assert profile.Roles()[0] == profile.pcmOut && profile.Roles()[1] == profile.pcmIn && profile.Roles()[2] == profile.midiIn;
    assert |Opened(profile, slots, copies, 1)| == 1;
    assert |Opened(profile, slots, copies, 2)| == 2;
  }

  /** The interface and pipe pools of OzzyKext (mInterfaces, mPipes), updated in place. */
  class Kext {
    var interfaces: seq<Option<nat>>
    var pipes: seq<Option<Pipe>>

    predicate Valid()
      reads this
    {
      |interfaces| == MaxInterfaces && |pipes| == MaxPipes
    }

    /** Both pools empty, as start leaves them before ConfigureHardware. */
    predicate Cleared()
      reads this
    {
      Valid() && (forall i :: 0 <= i < MaxInterfaces ==> interfaces[i].None?)
      && (forall p :: 0 <= p < MaxPipes ==> pipes[p].None?)
    }

    /** The pool loops of start: every interface and pipe slot is cleared. */
    constructor ()
      ensures Cleared()
    {
      interfaces := seq(MaxInterfaces, _ => None);
      pipes := seq(MaxPipes, _ => None);
    }

    /**
     * ConfigureHardware: refused without a work loop; every profile slot
     * claims the first child that is its interface and opens, and the call
     * fails unless all interfaceCount slots were claimed. Then the pipes of
     * the three roles fill the pool from slot 0, in role order.
     */
    method ConfigureHardware(workLoop: bool, profile: Profile, children: seq<Child>, copies: seq<bool>)
      returns (ok: bool)
      requires Cleared() && profile.WellFormed() && |copies| == 3
      modifies this
      ensures Valid()
      ensures ok <==> workLoop && forall i :: 0 <= i < profile.interfaceCount ==>
        FirstOpened(children, profile.interfaceIndices[i]).Some?
      ensures workLoop ==> forall i :: 0 <= i < profile.interfaceCount ==>
        interfaces[i] == FirstOpened(children, profile.interfaceIndices[i])
      ensures forall i :: profile.interfaceCount <= i < MaxInterfaces ==> interfaces[i].None?
      ensures ok ==>
        var pool := Opened(profile, interfaces, copies, 3);
        pipes[..|pool|] == Seq(pool) && forall p :: |pool| <= p < MaxPipes ==> pipes[p].None?
      ensures !ok ==> pipes == old(pipes)
    {
      if !workLoop {
        return false;
      }
      var foundCount := ClaimInterfaces(profile, children);
      ClaimedAll(interfaces, profile.interfaceCount);
      if foundCount != profile.interfaceCount {
        return false;
      }
      FillPipePool(profile, copies);
      ok := true;
    }

    /** The walk over the device's children: each profile slot claims the first matching child that opens. */
    method ClaimInterfaces(profile: Profile, children: seq<Child>) returns (foundCount: nat)
      requires Cleared() && profile.WellFormed()
      modifies this`interfaces
      ensures Valid() && foundCount == Claimed(interfaces, profile.interfaceCount)
      ensures forall i :: 0 <= i < profile.interfaceCount ==>
        interfaces[i] == FirstOpened(children, profile.interfaceIndices[i])
      ensures forall i :: profile.interfaceCount <= i < MaxInterfaces ==> interfaces[i].None?
    {
      foundCount := 0;
      ClaimedNone(interfaces, profile.interfaceCount);
      var c := 0;
      while c < |children|
        invariant c <= |children| && Valid()
        invariant foundCount == Claimed(interfaces, profile.interfaceCount)
        invariant forall i :: 0 <= i < profile.interfaceCount ==>
          interfaces[i] == FirstOpened(children[..c], profile.interfaceIndices[i])
        invariant forall i :: profile.interfaceCount <= i < MaxInterfaces ==> interfaces[i].None?
      {
        foundCount := OfferChild(profile, children[..c], children[c], foundCount);
        assert children[..c + 1] == children[..c] + [children[c]];
        c := c + 1;
      }
      assert children[..c] == children;
    }

    /** One child offered to every profile slot in turn. */
    method OfferChild(profile: Profile, seen: seq<Child>, child: Child, found: nat) returns (foundCount: nat)
      requires Valid() && profile.WellFormed()
      requires found == Claimed(interfaces, profile.interfaceCount)
      requires forall i :: 0 <= i < profile.interfaceCount ==>
        interfaces[i] == FirstOpened(seen, profile.interfaceIndices[i])
      requires forall i :: profile.interfaceCount <= i < MaxInterfaces ==> interfaces[i].None?
      modifies this`interfaces
      ensures Valid() && foundCount == Claimed(interfaces, profile.interfaceCount)
      ensures forall i :: 0 <= i < profile.interfaceCount ==>
        interfaces[i] == FirstOpened(seen + [child], profile.interfaceIndices[i])
      ensures forall i :: profile.interfaceCount <= i < MaxInterfaces ==> interfaces[i].None?
    {
      foundCount := found;
      if child.Other? {
        forall i | 0 <= i < profile.interfaceCount
          ensures interfaces[i] == FirstOpened(seen + [child], profile.interfaceIndices[i])
        {
          FirstOpenedSnoc(seen, child, profile.interfaceIndices[i]);
        }
        return;
      }
      var i := 0;
      while i < profile.interfaceCount
        invariant i <= profile.interfaceCount && Valid()
        invariant foundCount == Claimed(interfaces, profile.interfaceCount)
        invariant forall s :: 0 <= s < i ==> interfaces[s] == FirstOpened(seen + [child], profile.interfaceIndices[s])
        invariant forall s :: i <= s < profile.interfaceCount ==> interfaces[s] == FirstOpened(seen, profile.interfaceIndices[s])
        invariant forall s :: profile.interfaceCount <= s < MaxInterfaces ==> interfaces[s].None?
      {
        FirstOpenedSnoc(seen, child, profile.interfaceIndices[i]);
        if child.number == profile.interfaceIndices[i] && interfaces[i].None? {
          if child.opens {
            ClaimOne(interfaces, profile.interfaceCount, i, |seen|);
            interfaces := interfaces[i := Some(|seen|)];
            foundCount := foundCount + 1;
          }
        }
        i := i + 1;
      }
    }

    /** The pipe loop: the roles in order, each pool pipe taking the next pool slot while one is left. */
    method FillPipePool(profile: Profile, copies: seq<bool>)
      requires Valid() && profile.WellFormed() && |copies| == 3
      requires forall p :: 0 <= p < MaxPipes ==> pipes[p].None?
      modifies this`pipes
      ensures Valid()
      ensures var pool := Opened(profile, interfaces, copies, 3);
        pipes[..|pool|] == Seq(pool) && forall p :: |pool| <= p < MaxPipes ==> pipes[p].None?
    {
      var pipeCounter := 0;
      var k := 0;
      while k < 3
        invariant k <= 3 && Valid()
        invariant pipeCounter == |Opened(profile, interfaces, copies, k)|
        invariant pipes[..pipeCounter] == Seq(Opened(profile, interfaces, copies, k))
        invariant forall p :: pipeCounter <= p < MaxPipes ==> pipes[p].None?
      {
        var cfg := profile.Roles()[k];
        if cfg.address != 0 {
          var slot := FindSlot(profile, cfg.interfaceIndex);
          var target := if slot.Some? then interfaces[slot.value] else None;
          if target.Some? && copies[k] {
            if pipeCounter < MaxPipes {
              pipes := pipes[pipeCounter := Some(Pipe(cfg.address, target.value))];
              pipeCounter := pipeCounter + 1;
            }
          }
        }
        k := k + 1;
      }
    }

    /** The slot search of the pipe loop: the first profile slot naming the role's interface. */
    method FindSlot(profile: Profile, index: byte) returns (slot: Option<nat>)
      requires profile.WellFormed()
      ensures slot == SlotFrom(profile.interfaceIndices, index, 0, profile.interfaceCount)
    {
      var i := 0;
      while i < profile.interfaceCount
        invariant i <= profile.interfaceCount
        invariant SlotFrom(profile.interfaceIndices, index, i, profile.interfaceCount)
               == SlotFrom(profile.interfaceIndices, index, 0, profile.interfaceCount)
      {
        if profile.interfaceIndices[i] == index {
          return Some(i);
        }
        i := i + 1;
      }
      return None;
    }
  }

  /** The pool entries for a list of pool pipes. */
  function Seq(pool: seq<Pipe>): (r: seq<Option<Pipe>>)
    ensures |r| == |pool| && forall p :: 0 <= p < |r| ==> r[p] == Some(pool[p])
  {
    seq(|pool|, p requires 0 <= p < |pool| => Some(pool[p]))
  }
}
