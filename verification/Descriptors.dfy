/** The walk over a USB configuration descriptor (USB 2.0, sections 9.6.3, 9.6.5 and 9.6.6): interfaces and bulk endpoints. */
module Descriptors {
  const INTERFACE: int := 4
  const ENDPOINT: int := 5
  const INTERFACE_LENGTH: int := 9
  const STORAGE_CLASS: int := 8

  type Buffer = b: seq<int> | |b| == 256 && forall i :: 0 <= i < |b| ==> 0 <= b[i] < 256 witness seq(256, _ => 0)

  // ----- the chain of descriptors -----

  /** A whole descriptor lies at off. */
  predicate Fits(b: Buffer, total: nat, off: nat)
    requires total <= 256
  {
    off + 2 <= total && b[off] >= 2 && off + b[off] <= total
  }

  /** The offsets of the descriptors from off on, each behind the one before. */
  function Chain(b: Buffer, total: nat, off: nat): (ds: seq<nat>)
    requires total <= 256
    decreases total - off
  {
    if Fits(b, total, off) then [off] + Chain(b, total, off + b[off]) else []
  }

  /** Where a chain ends. */
  function End(b: Buffer, off: nat, ds: seq<nat>): int {
    if ds == [] then off else if ds[|ds| - 1] < 256 then ds[|ds| - 1] + b[ds[|ds| - 1]] else -1
  }

  /** All of the chain and only it: whole descriptors, length after length, up to the first place where none fits. */
  lemma {:induction false} ChainIs(b: Buffer, total: nat, off: nat)
    requires total <= 256
    ensures var ds := Chain(b, total, off);
            (ds != [] ==> ds[0] == off) && (forall i :: 0 <= i < |ds| ==> Fits(b, total, ds[i])) &&
            (forall i :: 0 <= i < |ds| - 1 ==> ds[i + 1] == ds[i] + b[ds[i]]) &&
            End(b, off, ds) >= 0 && !Fits(b, total, End(b, off, ds))
    decreases total - off
  {
    if Fits(b, total, off) {
      ChainIs(b, total, off + b[off]);
      var ds, rest := Chain(b, total, off), Chain(b, total, off + b[off]);
      assert forall i :: 0 <= i < |rest| ==> ds[i + 1] == rest[i];
    }
  }

  // ----- what the descriptors say -----

  predicate IsInterface(b: Buffer, total: nat, d: nat)
    requires total <= 256
  {
    Fits(b, total, d) && b[d + 1] == INTERFACE && b[d] >= INTERFACE_LENGTH
  }

  function Class(b: Buffer, d: nat): int
    requires d + 5 < 256
  {
    b[d + 5]
  }

  predicate IsStorage(b: Buffer, total: nat, d: nat)
    requires total <= 256
  {
    IsInterface(b, total, d) && Class(b, d) == STORAGE_CLASS
  }

  /** The last interface among ds is one of mass storage. */
  predicate InStorage(b: Buffer, total: nat, ds: seq<nat>)
    requires total <= 256
  {
    if ds == [] then false
    else if IsInterface(b, total, ds[|ds| - 1]) then IsStorage(b, total, ds[|ds| - 1])
    else InStorage(b, total, ds[..|ds| - 1])
  }

  /** No interface behind the j-th descriptor. */
  predicate NoInterface(b: Buffer, total: nat, ds: seq<nat>, j: nat)
    requires total <= 256
  {
    forall i :: j < i < |ds| ==> !IsInterface(b, total, ds[i])
  }

  lemma {:induction false} InStorageIs(b: Buffer, total: nat, ds: seq<nat>)
    requires total <= 256
    ensures InStorage(b, total, ds) <==> exists j: nat :: j < |ds| && IsStorage(b, total, ds[j]) && NoInterface(b, total, ds, j)
    decreases |ds|
  {
    hide Class, Fits;
    if ds != [] {
      var n := |ds| - 1;
      var front := ds[..n];
      InStorageIs(b, total, front);
      assert NoInterface(b, total, ds, n);
      if !IsInterface(b, total, ds[n]) {
        forall j: nat | j < n ensures NoInterface(b, total, ds, j) == NoInterface(b, total, front, j) {
          if NoInterface(b, total, ds, j) {
            forall i | j < i < n ensures !IsInterface(b, total, front[i]) { assert front[i] == ds[i]; }
          }
          if NoInterface(b, total, front, j) {
            forall i | j < i < |ds| ensures !IsInterface(b, total, ds[i]) { if i < n { assert front[i] == ds[i]; } }
          }
        }
      }
    }
  }

  /** A bulk endpoint of this direction. */
  predicate IsBulk(b: Buffer, total: nat, d: nat, input: bool)
    requires total <= 256
  {
    Fits(b, total, d) && b[d + 1] == ENDPOINT && b[d] >= 7 && b[d + 3] % 4 == 2 && (b[d + 2] >= 0x80) == input
  }

  function Number(b: Buffer, d: nat): int
    requires d + 2 < 256
  {
    b[d + 2] % 0x80
  }

  function MaxPacket(b: Buffer, d: nat): int
    requires d + 5 < 256
  {
    b[d + 4] + 0x100 * b[d + 5]
  }

  /** The k-th descriptor is a bulk endpoint of a mass-storage interface. */
  predicate Candidate(b: Buffer, total: nat, ds: seq<nat>, k: nat, input: bool)
    requires total <= 256 && k < |ds|
  {
    IsBulk(b, total, ds[k], input) && InStorage(b, total, ds[..k])
  }

  datatype Endpoint = Endpoint(number: int, packet: int)

  /** What is recorded after ds: an endpoint numbered 0 counts as none, and is overwritten. */
  function Recorded(b: Buffer, total: nat, ds: seq<nat>, input: bool): Endpoint
    requires total <= 256
    decreases |ds|
  {
    if ds == [] then Endpoint(0, 0)
    else
      var n := |ds| - 1;
      var before := Recorded(b, total, ds[..n], input);
      if Candidate(b, total, ds, n, input) && before.number == 0 then Endpoint(Number(b, ds[n]), MaxPacket(b, ds[n])) else before
  }

  /** The first candidate with a number. */
  ghost predicate FirstNumbered(b: Buffer, total: nat, ds: seq<nat>, k: nat, input: bool)
    requires total <= 256
  {
    k < |ds| && Numbered(b, total, ds, k, input) && forall j: nat :: j < k ==> !Numbered(b, total, ds, j, input)
  }

  predicate Numbered(b: Buffer, total: nat, ds: seq<nat>, k: nat, input: bool)
    requires total <= 256 && k < |ds|
  {
    Candidate(b, total, ds, k, input) && Number(b, ds[k]) != 0
  }

  /** The recorded endpoint is the first numbered bulk endpoint of a mass-storage interface, and none exactly if there is none. */
  lemma {:induction false} RecordsFirst(b: Buffer, total: nat, ds: seq<nat>, input: bool)
    requires total <= 256
    ensures var r := Recorded(b, total, ds, input);
            (r.number == 0 <==> forall k: nat :: k < |ds| ==> !Numbered(b, total, ds, k, input)) &&
            forall k: nat :: FirstNumbered(b, total, ds, k, input) ==> ds[k] + 5 < 256 && r == Endpoint(Number(b, ds[k]), MaxPacket(b, ds[k]))
    decreases |ds|
  {
    hide Recorded, Numbered, Candidate, Number, MaxPacket;
    if ds == [] {
      NothingRecorded(b, total, input);
    } else {
      var n := |ds| - 1;
      RecordsFirst(b, total, ds[..n], input);
      RecordedLast(b, total, ds, input);
      forall k: nat | FirstNumbered(b, total, ds, k, input)
        ensures ds[k] + 5 < 256 && Recorded(b, total, ds, input) == Endpoint(Number(b, ds[k]), MaxPacket(b, ds[k]))
      {
        if k < n { assert FirstNumbered(b, total, ds[..n], k, input); }
      }
    }
  }

  lemma NothingRecorded(b: Buffer, total: nat, input: bool)
    requires total <= 256
    ensures Recorded(b, total, [], input) == Endpoint(0, 0)
  {
  }

  /** What the last descriptor changes. */
  lemma {:induction false} RecordedLast(b: Buffer, total: nat, ds: seq<nat>, input: bool)
    requires total <= 256 && ds != []
    ensures var n := |ds| - 1;
            var before := Recorded(b, total, ds[..n], input);
            (forall k: nat :: k < n ==> Numbered(b, total, ds[..n], k, input) == Numbered(b, total, ds, k, input)) &&
            (Numbered(b, total, ds, n, input) ==> ds[n] + 5 < 256) &&
            (before.number != 0 ==> Recorded(b, total, ds, input) == before) &&
            (before.number == 0 && !Numbered(b, total, ds, n, input) ==> Recorded(b, total, ds, input).number == 0) &&
            (before.number == 0 && Numbered(b, total, ds, n, input) ==>
               Recorded(b, total, ds, input) == Endpoint(Number(b, ds[n]), MaxPacket(b, ds[n])) && Number(b, ds[n]) != 0)
  {
    hide InStorage;
    var n := |ds| - 1;
    forall k: nat | k < n ensures Numbered(b, total, ds[..n], k, input) == Numbered(b, total, ds, k, input) {
      assert ds[..n][..k] == ds[..k];
    }
  }

  function Interfaces(b: Buffer, total: nat, ds: seq<nat>): nat
    requires total <= 256
    decreases |ds|
  {
    if ds == [] then 0
    else Interfaces(b, total, ds[..|ds| - 1]) + if IsInterface(b, total, ds[|ds| - 1]) then 1 else 0
  }

  // ----- the descriptors' bytes -----

  /** A bulk endpoint descriptor of seven bytes: its number and direction in the third, its packet size lowest byte first. */
  lemma EndpointBytes(b: Buffer, total: nat, d: nat, number: int, input: bool, packet: int, interval: int)
    requires d + 7 <= total <= 256 && 0 <= number < 128 && 0 <= packet < 65536
    requires b[d..d + 7] == [7, 5, number + if input then 128 else 0, 2, packet % 256, packet / 256, interval]
    ensures IsBulk(b, total, d, input) && !IsBulk(b, total, d, !input) && Number(b, d) == number && MaxPacket(b, d) == packet
    ensures !IsInterface(b, total, d)
  {
    assert b[d] == b[d..d + 7][0] && b[d + 1] == b[d..d + 7][1] && b[d + 2] == b[d..d + 7][2] && b[d + 3] == b[d..d + 7][3];
    assert b[d + 4] == b[d..d + 7][4] && b[d + 5] == b[d..d + 7][5];
  }

  /** An interface descriptor of nine bytes: its class in the sixth, 8 for mass storage. */
  lemma InterfaceBytes(b: Buffer, total: nat, d: nat, number: int, setting: int, endpoints: int, class_: int, sub: int, protocol: int, text: int)
    requires d + 9 <= total <= 256
    requires b[d..d + 9] == [9, 4, number, setting, endpoints, class_, sub, protocol, text]
    ensures IsInterface(b, total, d) && (IsStorage(b, total, d) <==> class_ == 8)
    ensures forall input :: !IsBulk(b, total, d, input)
  {
    assert b[d] == b[d..d + 9][0] && b[d + 1] == b[d..d + 9][1] && b[d + 5] == b[d..d + 9][5];
  }

  // ----- the walk -----

  class UsbDevice {
    var descriptorCount: nat
    var interfaceCount: nat
    var massStorage: bool
    var bulkIn: Endpoint
    var bulkOut: Endpoint

    constructor ()
      ensures Shows(seq(256, _ => 0), 0, [])
    {
      descriptorCount, interfaceCount, massStorage, bulkIn, bulkOut := 0, 0, false, Endpoint(0, 0), Endpoint(0, 0);
    }

    /** The fields are those after the descriptors ds. */
    ghost predicate Shows(b: Buffer, total: nat, ds: seq<nat>)
      requires total <= 256
      reads this
    {
      descriptorCount == |ds| && interfaceCount == Interfaces(b, total, ds) &&
      massStorage == (exists d :: d in ds && IsStorage(b, total, d)) &&
      bulkIn == Recorded(b, total, ds, true) && bulkOut == Recorded(b, total, ds, false)
    }

    /** Descriptor after descriptor, on every buffer, within the total length. */
    method Walk(b: Buffer, total: nat)
      requires total <= 256 && Shows(b, total, [])
      modifies this
      ensures Shows(b, total, Chain(b, total, 0))
    {
      hide Fits, IsStorage, IsInterface, IsBulk, Number, MaxPacket, Recorded, Interfaces, InStorage;
      var offset, inStorage := 0, false;
      ghost var ds: seq<nat> := [];
      NoneYet(b, total);
      while offset + 2 <= total && Whole(b, total, offset)
        invariant offset <= 256 && Chain(b, total, 0) == ds + Chain(b, total, offset)
        invariant Shows(b, total, ds) && inStorage == InStorage(b, total, ds)
        decreases total - offset
      {
        WholeFits(b, total, offset);
        OneMore(b, total, ds, offset);
        descriptorCount := descriptorCount + 1;
        inStorage := Visit(b, total, offset, inStorage, ds);
        ds := ds + [offset];
        offset := offset + b[offset];
      }
      if offset + 2 <= total { WholeFits(b, total, offset); } else { TooFar(b, total, offset); }
      assert ds + [] == ds;
    }

    /** One descriptor. */
    method Visit(b: Buffer, total: nat, offset: nat, inStorage: bool, ghost ds: seq<nat>) returns (r: bool)
      requires total <= 256 && Fits(b, total, offset) && inStorage == InStorage(b, total, ds)
      requires descriptorCount == |ds| + 1 && interfaceCount == Interfaces(b, total, ds)
      requires massStorage == (exists d :: d in ds && IsStorage(b, total, d))
      requires bulkIn == Recorded(b, total, ds, true) && bulkOut == Recorded(b, total, ds, false)
      modifies this`interfaceCount, this`massStorage, this`bulkIn, this`bulkOut
      ensures Shows(b, total, ds + [offset]) && r == InStorage(b, total, ds + [offset])
    {
      hide Recorded, Interfaces, InStorage;
      ghost var all := ds + [offset];
      assert all[..|ds|] == ds && all[|ds|] == offset;
      LastVisited(b, total, all);
      assert (exists d :: d in all && IsStorage(b, total, d)) == ((exists d :: d in ds && IsStorage(b, total, d)) || IsStorage(b, total, offset)) by {
        assert offset in all && forall d :: d in all <==> d in ds || d == offset;
      }
      r := inStorage;
      var len, kind := b[offset], b[offset + 1];
      if kind == INTERFACE && len >= INTERFACE_LENGTH {
        interfaceCount := interfaceCount + 1;
        r := b[offset + 5] == STORAGE_CLASS;
        if r { massStorage := true; }
      } else if kind == ENDPOINT && len >= 7 && inStorage {
        var addr, attr := b[offset + 2], b[offset + 3];
        var packet := b[offset + 4] + 0x100 * b[offset + 5];
        if attr % 4 == 2 && addr >= 0x80 && bulkIn.number == 0 { bulkIn := Endpoint(addr % 0x80, packet); }
        if attr % 4 == 2 && addr < 0x80 && bulkOut.number == 0 { bulkOut := Endpoint(addr % 0x80, packet); }
      }
    }
  }

  predicate Whole(b: Buffer, total: nat, off: nat)
    requires total <= 256 && off + 2 <= total
  {
    b[off] >= 2 && off + b[off] <= total
  }

  lemma WholeFits(b: Buffer, total: nat, off: nat)
    requires total <= 256 && off + 2 <= total
    ensures Whole(b, total, off) == Fits(b, total, off) && (!Fits(b, total, off) ==> Chain(b, total, off) == [])
  {
  }

  lemma TooFar(b: Buffer, total: nat, off: nat)
    requires total <= 256 && off + 2 > total
    ensures Chain(b, total, off) == []
  {
  }

  lemma NoneYet(b: Buffer, total: nat)
    requires total <= 256
    ensures Chain(b, total, 0) == [] + Chain(b, total, 0) && !InStorage(b, total, [])
  {
  }

  lemma OneMore(b: Buffer, total: nat, ds: seq<nat>, off: nat)
    requires total <= 256 && Fits(b, total, off)
    ensures ds + Chain(b, total, off) == (ds + [off]) + Chain(b, total, off + b[off]) && off + b[off] <= 256 && b[off] > 0
  {
  }

  /** The folds over a chain, at its last descriptor. */
  lemma LastVisited(b: Buffer, total: nat, ds: seq<nat>)
    requires total <= 256 && ds != []
    ensures var n := |ds| - 1;
            InStorage(b, total, ds) == (if IsInterface(b, total, ds[n]) then IsStorage(b, total, ds[n]) else InStorage(b, total, ds[..n])) &&
            Interfaces(b, total, ds) == Interfaces(b, total, ds[..n]) + (if IsInterface(b, total, ds[n]) then 1 else 0) &&
            forall input: bool :: Recorded(b, total, ds, input) ==
              var before := Recorded(b, total, ds[..n], input);
              if IsBulk(b, total, ds[n], input) && InStorage(b, total, ds[..n]) && before.number == 0
              then Endpoint(Number(b, ds[n]), MaxPacket(b, ds[n])) else before
  {
  }
}
