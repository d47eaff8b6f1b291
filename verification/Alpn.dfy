/**
 * The walk over a client's ALPN protocol name list (src/ssl_ctx.cc, select_next_proto). A list is a
 * sequence of names, each preceded by its length in one byte (section 3.1 of RFC 7301).
 */
module Alpn {

  type Byte = b: nat | b < 256

  /** `key` is a single list entry: a length byte and that many bytes. */
  predicate IsEntry(key: seq<Byte>) {
    key != [] && key[0] == |key| - 1
  }

  /** `key` stands at offset `i`. */
  predicate At(list: seq<Byte>, i: nat, key: seq<Byte>) {
    i + |key| <= |list| && forall j :: 0 <= j < |key| ==> list[i + j] == key[j]
  }

  /** Offset of the entry that the walk from `i` stops at, or the list's length if it finds none. */
  function Walk(list: seq<Byte>, i: nat, key: seq<Byte>): (r: nat)
    requires key != []
    ensures r == |list| || (i <= r && At(list, r, key))
    decreases |list| - i
  {
    if i + |key| > |list| then |list|
    else if At(list, i, key) then i
    else Walk(list, i + list[i] + 1, key)
  }

  /** Arithmetic of `unsigned int`. */
  function U32(x: nat): (r: nat)
    ensures x < 0x1_0000_0000 ==> r == x
  {
    x % 0x1_0000_0000
  }

  lemma EntrySlice(list: seq<Byte>, i: nat, key: seq<Byte>)
    requires IsEntry(key) && At(list, i, key)
    ensures i + 1 + list[i] <= |list| && list[i + 1..i + 1 + list[i]] == key[1..]
  {
    assert list[i + 0] == key[0];
  }

  /**
   * select_next_proto, with its 32-bit index. On every byte string whose length leaves room for one
   * more step it terminates, and the slice it returns lies inside the list and spells the entry asked
   * for. LengthIsExact shows that no longer lists can be promised this.
   */
  method SelectNextProto(list: seq<Byte>, key: seq<Byte>) returns (found: bool, from: nat, len: nat)
    requires IsEntry(key) && |list| + 256 < 0x1_0000_0000
    ensures found <==> Walk(list, 0, key) < |list|
    ensures found ==> from == Walk(list, 0, key) + 1 && from + len <= |list| && list[from..from + len] == key[1..]
  {
    var i: nat := 0;
    while U32(i + |key|) <= |list|
      invariant (i == 0 || i + |key| <= |list| + 256) && Walk(list, 0, key) == Walk(list, i, key)
      decreases |list| + 256 - i
    {
      if At(list, i, key) {
        EntrySlice(list, i, key);
        return true, i + 1, list[i];
      }
      i := U32(i + list[i] + 1);
    }
    return false, 0, 0;
  }

  // ---------------------------------------------------------------- how long a list may be

  /** The loop goes from offset `i` on to offset `j`. */
  predicate Turn(list: seq<Byte>, key: seq<Byte>, i: nat, j: nat) {
    i + |key| <= |list| && i < |list| && U32(i + |key|) <= |list| && !At(list, i, key) && j == U32(i + list[i] + 1)
  }

  /** The loop stands at offset `i` after `n` turns. */
  ghost predicate Reaches(list: seq<Byte>, key: seq<Byte>, i: nat, n: nat)
    decreases n
  {
    if n == 0 then i == 0 else exists j: nat :: Reaches(list, key, j, n - 1) && Turn(list, key, j, i)
  }

  /** At offset `i` the loop ends, or reads inside the list and then stops or advances. */
  predicate Sound(list: seq<Byte>, key: seq<Byte>, i: nat) {
    U32(i + |key|) <= |list| ==>
      i + |key| <= |list| && i < |list| && (At(list, i, key) || U32(i + list[i] + 1) > i)
  }

  ghost predicate SoundWalk(list: seq<Byte>, key: seq<Byte>) {
    forall i: nat, n: nat :: Reaches(list, key, i, n) ==> Sound(list, key, i)
  }

  lemma {:induction false} ShortListOffsets(list: seq<Byte>, key: seq<Byte>, i: nat, n: nat)
    requires IsEntry(key) && |list| + 256 < 0x1_0000_0000 && Reaches(list, key, i, n)
    ensures i == 0 || i + |key| <= |list| + 256
    decreases n
  {
    if n > 0 {
      var j: nat :| Reaches(list, key, j, n - 1) && Turn(list, key, j, i);
      ShortListOffsets(list, key, j, n - 1);
    }
  }

  /** A list of one-byte steps that ends with the longest step the key leaves room for. */
  function Overrun(length: nat, last: nat): seq<Byte> {
    seq(length, i => if i == last then 255 else 0)
  }

  lemma {:induction false} OverrunReaches(length: nat, key: seq<Byte>, i: nat)
    requires IsEntry(key) && 0 < key[0] < 255 && |key| <= length < 0x1_0000_0000 && i + |key| <= length
    ensures Reaches(Overrun(length, length - |key|), key, i, i)
    decreases i
  {
    if i > 0 {
      var list := Overrun(length, length - |key|);
      OverrunReaches(length, key, i - 1);
      assert list[i - 1] == 0;
      assert !At(list, i - 1, key) by { assert list[i - 1 + 0] != key[0]; }
      assert Turn(list, key, i - 1, i);
    }
  }

  /** On a list within 256 bytes of 2^32 the last step wraps around: out of the list, or back to its start. */
  lemma OverrunIsUnsound(length: nat, key: seq<Byte>)
    requires IsEntry(key) && 0 < key[0] < 255 && 0x1_0000_0000 <= length + 256 && length < 0x1_0000_0000
    ensures !SoundWalk(Overrun(length, length - |key|), key)
  {
    var last := length - |key|;
    var list := Overrun(length, last);
    OverrunReaches(length, key, last);
    assert list[last] == 255;
    assert !At(list, last, key) by { assert list[last + 0] != key[0]; }
    var next := U32(last + 256);
    if last + 256 < 0x1_0000_0000 {
      assert Turn(list, key, last, next) && Reaches(list, key, next, last + 1);
      assert !Sound(list, key, next);
    } else {
      assert !Sound(list, key, last);
    }
  }

  /** Every list of a length is walked soundly exactly when the length leaves room for one more step. */
  lemma LengthIsExact(length: nat, key: seq<Byte>)
    requires IsEntry(key) && 0 < key[0] < 255 && length < 0x1_0000_0000
    ensures (forall list: seq<Byte> :: |list| == length ==> SoundWalk(list, key)) <==> length + 256 < 0x1_0000_0000
  {
    if length + 256 < 0x1_0000_0000 {
      forall list: seq<Byte>, i: nat, n: nat | |list| == length && Reaches(list, key, i, n)
        ensures Sound(list, key, i)
      {
        ShortListOffsets(list, key, i, n);
      }
    } else {
      OverrunIsUnsound(length, key);
      assert |Overrun(length, length - |key|)| == length;
    }
  }

  // ---------------------------------------------------------------- well-formed lists

  type Name = n: seq<Byte> | 1 <= |n| <= 255 witness [0]

  function Entry(name: Name): (e: seq<Byte>)
    ensures IsEntry(e)
  {
    [|name|] + name
  }

  function Encode(names: seq<Name>): seq<Byte> {
    if names == [] then [] else Entry(names[0]) + Encode(names[1..])
  }

  lemma SameEntry(list: seq<Byte>, i: nat, name: Name, other: Name)
    requires At(list, i, Entry(other)) && i + |name| + 1 <= |list|
    ensures At(list, i, Entry(name)) <==> name == other
  {
    assert list[i + 0] == Entry(other)[0] == |other|;
    if At(list, i, Entry(name)) {
      assert list[i + 0] == Entry(name)[0] == |name|;
      forall j | 0 <= j < |name| ensures name[j] == other[j] {
        assert Entry(name)[j + 1] == list[i + (j + 1)] == Entry(other)[j + 1];
      }
    }
  }

  /** From offset `i` on, the list consists of the entries of `names`. */
  predicate Spells(list: seq<Byte>, i: nat, names: seq<Name>)
    decreases |names|
  {
    if names == [] then i == |list|
    else At(list, i, Entry(names[0])) && Spells(list, i + |names[0]| + 1, names[1..])
  }

  lemma {:induction false} EncodeSpells(before: seq<Byte>, names: seq<Name>)
    ensures Spells(before + Encode(names), |before|, names)
    decreases |names|
  {
    if names != [] {
      var e, rest := Entry(names[0]), Encode(names[1..]);
      assert before + Encode(names) == before + e + rest;
      EncodeSpells(before + e, names[1..]);
    }
  }

  predicate Offers(names: seq<Name>, name: Name) {
    names != [] && (names[0] == name || Offers(names[1..], name))
  }

  lemma {:induction false} OffersIsMembership(names: seq<Name>, name: Name)
    ensures Offers(names, name) <==> name in names
  {
    if names != [] {
      assert names == [names[0]] + names[1..];
      OffersIsMembership(names[1..], name);
    }
  }

  lemma WalkStep(list: seq<Byte>, i: nat, name: Name, first: Name)
    requires At(list, i, Entry(first)) && i + |name| + 1 <= |list|
    ensures Walk(list, i, Entry(name)) == if name == first then i else Walk(list, i + |first| + 1, Entry(name))
  {
    SameEntry(list, i, name, first);
    assert list[i + 0] == Entry(first)[0] == |first|;
  }

  /** From an entry boundary on, the walk finds the name exactly when it is among the remaining ones. */
  lemma {:induction false} WalkDecodes(list: seq<Byte>, i: nat, names: seq<Name>, name: Name)
    requires Spells(list, i, names)
    ensures Walk(list, i, Entry(name)) < |list| <==> Offers(names, name)
    decreases |names|
  {
    if i + |name| + 1 > |list| {
      TooShort(list, i, names, name);
    } else {
      WalkStep(list, i, name, names[0]);
      WalkDecodes(list, i + |names[0]| + 1, names[1..], name);
    }
  }

  lemma {:induction false} TooShort(list: seq<Byte>, i: nat, names: seq<Name>, name: Name)
    requires Spells(list, i, names) && i + |name| + 1 > |list|
    ensures !Offers(names, name)
    decreases |names|
  {
    if names != [] { TooShort(list, i + |names[0]| + 1, names[1..], name); }
  }

  /** On every well-formed list: success exactly when the name is offered. */
  lemma OfferedIffFound(names: seq<Name>, name: Name)
    ensures Walk(Encode(names), 0, Entry(name)) < |Encode(names)| <==> name in names
  {
    EncodeSpells([], names);
    assert [] + Encode(names) == Encode(names);
    WalkDecodes(Encode(names), 0, names, name);
    OffersIsMembership(names, name);
  }

  /** "h2", the only protocol the server selects. */
  const H2: Name := [104, 50]

  /** alpn_select_proto_cb on a well-formed list: h2 is selected exactly when the client offers it. */
  method AlpnSelectProto(list: seq<Byte>, ghost names: seq<Name>) returns (ok: bool, from: nat, len: nat)
    requires Spells(list, 0, names) && |list| <= 0xFFFF
    ensures ok <==> H2 in names
    ensures ok ==> from + len <= |list| && list[from..from + len] == H2
  {
    ok, from, len := SelectNextProto(list, Entry(H2));
    WalkDecodes(list, 0, names, H2);
    OffersIsMembership(names, H2);
    assert Entry(H2)[1..] == H2;
  }
}
