/** The challenge store of relay/dns-relay.js: TXT values pushed for dns-01, bounded by name
    and by value, and their encoding as character-strings (RFC 1035, section 3.3.14). */
module TxtChallenges {
  import opened Common
  import opened DnsWire

  const MAX_TXT_NAMES := 2048
  const MAX_TXT_VALUES := 8
  const MAX_VALUE := 3072      // 1024 UTF-16 units in UTF-8

  // --- character-strings ------------------------------------------------------------------------

  /** TXT rdata: chunks of at most 255 bytes, at least one. */
  function TxtData(value: Bytes): Bytes
    decreases |value|
  {
    if |value| <= 255 then [|value|] + value else [255] + value[..255] + TxtData(value[255..])
  }

  /** What a client makes of it: the strings one after the other. */
  function ReadStrings(rdata: Bytes): Option<Bytes> {
    if rdata == [] then Some([])
    else if 1 + rdata[0] as int > |rdata| then None
    else match ReadStrings(rdata[1 + rdata[0] as int..])
      case None => None
      case Some(rest) => Some(rdata[1..1 + rdata[0] as int] + rest)
  }

  /** The strings concatenate back to the value, and cost a byte per 255 of it. */
  lemma {:induction false} TxtReads(value: Bytes)
    ensures ReadStrings(TxtData(value)) == Some(value)
    ensures |TxtData(value)| <= |value| + |value| / 255 + 1
    decreases |value|
  {
    var data := TxtData(value);
    if |value| <= 255 {
      assert data[0] == |value| && data[1 + |value|..] == [] && data[1..1 + |value|] == value;
      assert ReadStrings([]) == Some([]) && value + [] == value;
    } else {
      TxtReads(value[255..]);
      assert data[1..256] == value[..255] && data[256..] == TxtData(value[255..]);
      assert value[..255] + value[255..] == value;
    }
  }

  /** txtRR's loop. */
  method TxtDataLoop(value: Bytes) returns (data: Bytes)
    ensures data == TxtData(value)
  {
    data := [];
    var i := 0;
    while i == 0 || i < |value|
      invariant i - 255 <= |value|
      invariant if i == 0 || i < |value| then i <= |value| && data + TxtData(value[i..]) == TxtData(value)
                else data == TxtData(value)
      decreases |value| + 255 - i
    {
      var end := if i + 255 < |value| then i + 255 else |value|;
      var chunk := value[i..end];
      ghost var rest := value[i..];
      assert if |rest| <= 255 then chunk == rest else chunk == rest[..255] && rest[255..] == value[end..];
      if |rest| > 255 { assert data + ([255] + chunk + TxtData(value[end..])) == (data + ([255] + chunk)) + TxtData(value[end..]); }
      data := data + ([|chunk|] + chunk);
      i := i + 255;
    }
  }

  // --- one name's values --------------------------------------------------------------------------

  datatype Entry = Entry(value: Bytes, exp: int)

  predicate DistinctValues(es: seq<Entry>) { forall i, j | 0 <= i < j < |es| :: es[i].value != es[j].value }

  predicate HasValue(es: seq<Entry>, v: Bytes) { exists i | 0 <= i < |es| :: es[i].value == v }

  predicate Sized(es: seq<Entry>) { forall x <- es :: 1 <= |x.value| <= MAX_VALUE }

  predicate EntriesOk(es: seq<Entry>) { 1 <= |es| <= MAX_TXT_VALUES && DistinctValues(es) && Sized(es) }

  function Live(es: seq<Entry>, now: int): seq<Entry> {
    if es == [] then [] else (if es[0].exp > now then [es[0]] else []) + Live(es[1..], now)
  }

  lemma {:induction false} LiveMember(es: seq<Entry>, now: int, x: Entry)
    ensures x in Live(es, now) <==> x in es && x.exp > now
  {
    if es != [] {
      assert es == [es[0]] + es[1..];
      LiveMember(es[1..], now, x);
    }
  }

  lemma {:induction false} LiveOk(es: seq<Entry>, now: int)
    requires DistinctValues(es)
    ensures |Live(es, now)| <= |es| && DistinctValues(Live(es, now))
  {
    if es != [] {
      LiveOk(es[1..], now);
      var rest := Live(es[1..], now);
      forall i | 0 <= i < |rest| ensures rest[i].value != es[0].value {
        LiveMember(es[1..], now, rest[i]);
        var j :| 0 <= j < |es[1..]| && es[1..][j] == rest[i];
        assert es[j + 1] == rest[i];
      }
    }
  }

  /** `vals.set(value, exp)`: a known value keeps its place, a new one goes last. */
  function Put(es: seq<Entry>, e: Entry): seq<Entry> {
    if es == [] then [e]
    else if es[0].value == e.value then [e] + es[1..]
    else [es[0]] + Put(es[1..], e)
  }

  lemma HasValueTail(es: seq<Entry>, v: Bytes)
    requires es != [] && es[0].value != v
    ensures HasValue(es, v) <==> HasValue(es[1..], v)
  {
    if HasValue(es, v) {
      var i :| 0 <= i < |es| && es[i].value == v;
      assert es[1..][i - 1].value == v;
    }
    if HasValue(es[1..], v) {
      var i :| 0 <= i < |es[1..]| && es[1..][i].value == v;
      assert es[i + 1].value == v;
    }
  }

  lemma {:induction false} PutShape(es: seq<Entry>, e: Entry) returns (k: nat)
    ensures if HasValue(es, e.value) then k < |es| && es[k].value == e.value && Put(es, e) == es[k := e]
            else Put(es, e) == es + [e]
  {
    k := 0;
    if es != [] {
      assert es == [es[0]] + es[1..];
      if es[0].value != e.value {
        HasValueTail(es, e.value);
        k := PutShape(es[1..], e);
        k := k + 1;
      }
    }
  }

  lemma PutOk(es: seq<Entry>, e: Entry)
    requires DistinctValues(es)
    ensures var r := Put(es, e);
            && DistinctValues(r) && |r| == (if HasValue(es, e.value) then |es| else |es| + 1)
            && (!HasValue(es, e.value) ==> r == es + [e])
            && e in r && forall x :: x in r ==> x == e || x in es
  {
    hide Put;
    var k := PutShape(es, e);
    var r := Put(es, e);
    if HasValue(es, e.value) { assert r[k] == e; } else { assert r[|es|] == e; }
  }

  /** The first of the entries closest to expiry. */
  function Oldest(es: seq<Entry>): (k: nat)
    requires es != []
    ensures k < |es|
    ensures forall i | 0 <= i < k :: es[i].exp > es[k].exp
    ensures forall i | k < i < |es| :: es[i].exp >= es[k].exp
  {
    if |es| == 1 then 0
    else
      var k := 1 + Oldest(es[1..]);
      assert forall i | 0 < i < |es| :: es[i] == es[1..][i - 1];
      if es[0].exp <= es[k].exp then 0 else k
  }

  /** `for (const [v, exp] of vals) if (exp < at) ...` */
  method OldestLoop(es: seq<Entry>) returns (k: nat)
    requires es != []
    ensures k == Oldest(es)
  {
    k := 0;
    for i := 1 to |es|
      invariant k < i
      invariant forall j | 0 <= j < k :: es[j].exp > es[k].exp
      invariant forall j | k < j < i :: es[j].exp >= es[k].exp
    {
      if es[i].exp < es[k].exp { k := i; }
    }
  }

  function Without(es: seq<Entry>, k: nat): seq<Entry>
    requires k < |es|
  {
    es[..k] + es[k + 1..]
  }

  function Trim(es: seq<Entry>): seq<Entry>
    decreases |es|
  {
    if |es| <= MAX_TXT_VALUES then es else Trim(Without(es, Oldest(es)))
  }

  function Pushed(es: seq<Entry>, e: Entry): seq<Entry> { Trim(Put(es, e)) }

  lemma TrimOne(es: seq<Entry>)
    requires |es| == MAX_TXT_VALUES + 1 && DistinctValues(es)
    ensures Trim(es) == Without(es, Oldest(es)) && DistinctValues(Trim(es)) && |Trim(es)| == MAX_TXT_VALUES
    ensures forall x :: x in Trim(es) ==> x in es
  {
    hide Oldest;
    WithoutOk(es, Oldest(es));
  }

  lemma WithoutOk(es: seq<Entry>, k: nat)
    requires k < |es| && DistinctValues(es)
    ensures var r := Without(es, k);
            DistinctValues(r) && |r| == |es| - 1 && forall x :: x in r ==> x in es
  {
    var r := Without(es, k);
    assert forall i | 0 <= i < |r| :: r[i] == es[if i < k then i else i + 1];
  }

  lemma PushedOk(es: seq<Entry>, e: Entry)
    requires |es| <= MAX_TXT_VALUES && DistinctValues(es) && Sized(es) && 1 <= |e.value| <= MAX_VALUE
    ensures EntriesOk(Pushed(es, e))
  {
    hide Put, Trim, HasValue, DistinctValues;
    PutOk(es, e);
    if |Put(es, e)| > MAX_TXT_VALUES { TrimOne(Put(es, e)); } else { TrimNone(Put(es, e)); }
  }

  lemma TrimNone(es: seq<Entry>)
    requires |es| <= MAX_TXT_VALUES
    ensures Trim(es) == es
  {}

  /** The value just pushed is kept exactly unless the name was full without it and it would
      itself expire before every one of them. */
  lemma NewestSurvivesExactly(es: seq<Entry>, e: Entry)
    requires |es| <= 8 && DistinctValues(es)
    ensures e in Pushed(es, e)
            <==> HasValue(es, e.value) || |es| < 8 || exists i | 0 <= i < |es| :: es[i].exp <= e.exp
  {
    hide Put, HasValue;
    PutOk(es, e);
    if !HasValue(es, e.value) && |es| == MAX_TXT_VALUES {
      var all := es + [e];
      var k := Oldest(all);
      TrimOne(all);
      if k < |es| {
        assert es[k].exp <= e.exp by { assert all[k] == es[k] && all[|es|] == e; }
        assert e == Without(all, k)[|es| - 1];
      } else {
        assert forall i | 0 <= i < |es| :: all[i] == es[i];
        assert Without(all, k) == es;
        NotAmong(es, e);
      }
    }
  }

  /** A value pushed is served until it expires, unless it was that one; and of the values
      there before, only the first of those closest to expiry can go, when the name overflows. */
  lemma PushedIsServed(es: seq<Entry>, e: Entry, now: int)
    requires |es| <= 8 && DistinctValues(es)
    ensures e in Live(Pushed(es, e), now)
            <==> now < e.exp && (HasValue(es, e.value) || |es| < 8 || exists i | 0 <= i < |es| :: es[i].exp <= e.exp)
  {
    NewestSurvivesExactly(es, e);
    LiveMember(Pushed(es, e), now, e);
    hide HasValue, Pushed;
  }

  lemma OthersSurviveExactly(es: seq<Entry>, e: Entry, k: nat)
    requires |es| <= 8 && DistinctValues(es) && k < |es| && es[k].value != e.value
    ensures es[k] !in Pushed(es, e)
            <==> !HasValue(es, e.value) && |es| == 8 && es[k].exp <= e.exp
                 && (forall i | 0 <= i < k :: es[i].exp > es[k].exp) && (forall i | k < i < |es| :: es[i].exp >= es[k].exp)
  {
    hide Put;
    PutOk(es, e);
    if HasValue(es, e.value) {
      var j := PutShape(es, e);
      assert Put(es, e)[k] == es[k];
      hide HasValue;
    } else {
      hide HasValue;
      var all := es + [e];
      assert forall i | 0 <= i < |es| :: all[i] == es[i];
      assert all[k] == es[k] && all[|es|] == e;
      if |es| == MAX_TXT_VALUES {
        TrimOne(all);
        GoneExactly(all, Oldest(all), k);
      }
    }
  }

  lemma GoneExactly(es: seq<Entry>, j: nat, k: nat)
    requires j < |es| && k < |es| && DistinctValues(es)
    ensures es[k] !in Without(es, j) <==> k == j
  {
    var r := Without(es, j);
    assert forall i | 0 <= i < |r| :: r[i] == es[if i < j then i else i + 1];
    if k != j { assert r[if k < j then k else k - 1] == es[k]; }
  }

  lemma NotAmong(es: seq<Entry>, e: Entry)
    requires !HasValue(es, e.value)
    ensures e !in es
  {}

  function Dropped(es: seq<Entry>, v: Bytes): seq<Entry> {
    if es == [] then [] else if es[0].value == v then es[1..] else [es[0]] + Dropped(es[1..], v)
  }

  lemma WithoutCons(es: seq<Entry>, k: nat)
    requires k + 1 < |es|
    ensures Without(es, k + 1) == [es[0]] + Without(es[1..], k) && es[k + 1] == es[1..][k]
  {}

  lemma {:induction false} DroppedShape(es: seq<Entry>, v: Bytes) returns (k: nat)
    ensures if HasValue(es, v) then k < |es| && es[k].value == v && Dropped(es, v) == Without(es, k)
            else Dropped(es, v) == es
  {
    k := 0;
    if es != [] {
      if es[0].value == v {
        assert Without(es, 0) == es[1..];
      } else {
        HasValueTail(es, v);
        k := DroppedShape(es[1..], v);
        if HasValue(es, v) { WithoutCons(es, k); }
        k := k + 1;
      }
    }
  }

  lemma {:induction false} DroppedMember(es: seq<Entry>, v: Bytes, x: Entry)
    requires DistinctValues(es)
    ensures x in Dropped(es, v) <==> x in es && x.value != v
  {
    if es != [] {
      assert es == [es[0]] + es[1..];
      if es[0].value == v {
        if x in es[1..] {
          var i :| 0 <= i < |es[1..]| && es[1..][i] == x;
          assert es[i + 1] == x;
        }
      } else {
        DroppedMember(es[1..], v, x);
      }
    }
  }

  lemma DroppedOk(es: seq<Entry>, v: Bytes)
    requires DistinctValues(es)
    ensures var r := Dropped(es, v);
            && DistinctValues(r) && |r| <= |es| && forall x :: x in r <==> x in es && x.value != v
  {
    forall x: Entry ensures x in Dropped(es, v) <==> x in es && x.value != v { DroppedMember(es, v, x); }
    hide Dropped;
    var k := DroppedShape(es, v);
    if HasValue(es, v) { WithoutOk(es, k); }
  }

  function Lookup(m: map<Bytes, seq<Entry>>, name: Bytes): seq<Entry> { if name in m then m[name] else [] }

  /** All names but those in `left` have been expired. */
  ghost predicate Halfway(was: map<Bytes, seq<Entry>>, m: map<Bytes, seq<Entry>>, left: set<Bytes>, now: int) {
    forall n :: Lookup(m, n) == if n in left then Lookup(was, n) else Live(Lookup(was, n), now)
  }

  lemma HalfwayStarts(m: map<Bytes, seq<Entry>>, now: int)
    ensures Halfway(m, m, m.Keys, now)
  {}

  lemma HalfwayStep(was: map<Bytes, seq<Entry>>, m0: map<Bytes, seq<Entry>>, m1: map<Bytes, seq<Entry>>,
                    left: set<Bytes>, n: Bytes, now: int)
    requires Halfway(was, m0, left, now) && n in left && Lookup(m1, n) == Live(Lookup(m0, n), now)
    requires forall o | o != n :: Lookup(m1, o) == Lookup(m0, o)
    ensures Halfway(was, m1, left - {n}, now)
  {
    hide Live;
    assert Lookup(m0, n) == Lookup(was, n);
  }

  // --- the store, in place ----------------------------------------------------------------------

  class TxtStore {
    var names: map<Bytes, seq<Entry>>

    /** Both caps, and what the push API checked of names and values. */
    ghost predicate Valid()
      reads this
    {
      |names| <= MAX_TXT_NAMES && forall n | n in names :: |n| <= 253 && EntriesOk(names[n])
    }

    constructor ()
      ensures Valid() && names == map[]
    {
      names := map[];
    }

    function Entries(name: Bytes): seq<Entry>
      reads this
    {
      Lookup(names, name)
    }

    /** txtValues: expire, then list. */
    method TxtValues(name: Bytes, now: int) returns (vals: seq<Entry>)
      requires Valid()
      modifies this
      ensures Valid() && vals == Live(old(Entries(name)), now) == Entries(name)
      ensures names.Keys <= old(names).Keys
      ensures forall n | n != name :: Lookup(names, n) == Lookup(old(names), n)
    {
      hide Live, EntriesOk;
      if name !in names {
        LiveEntriesOk([], now);
        return [];
      }
      vals := Live(names[name], now);
      LiveEntriesOk(names[name], now);
      if vals == [] {
        RemoveShrinks(names, name);
        names := names - {name};
      } else {
        UpdateKeeps(names, name, vals);
        names := names[name := vals];
      }
    }

    method ExpireAll(now: int)
      requires Valid()
      modifies this
      ensures Valid() && names.Keys <= old(names).Keys
      ensures forall n :: Entries(n) == Live(old(Entries(n)), now)
    {
      ghost var was := names;
      var left := names.Keys;
      HalfwayStarts(names, now);
      while left != {}
        invariant Valid() && names.Keys <= was.Keys && Halfway(was, names, left, now)
      {
        hide Valid, Halfway, Live, Lookup;
        var n :| n in left;
        ghost var before := names;
        ghost var l := TxtValues(n, now);
        HalfwayStep(was, before, names, left, n, now);
        left := left - {n};
      }
    }

    /** The DELETE. */
    method Remove(name: Bytes, value: Bytes)
      requires Valid()
      modifies this
      ensures Valid()
      ensures forall x :: x in Entries(name) <==> x in old(Entries(name)) && x.value != value
      ensures forall n | n != name :: Entries(n) == old(Entries(n))
    {
      if name !in names { return; }
      var vals := Dropped(names[name], value);
      DroppedOk(names[name], value);
      if vals == [] {
        RemoveShrinks(names, name);
        names := names - {name};
      } else {
        UpdateKeeps(names, name, vals);
        names := names[name := vals];
      }
    }

    /** The POST: false when the store is full of names still live. */
    method Push(name: Bytes, value: Bytes, now: int, ttl: nat) returns (ok: bool)
      requires Valid() && |name| <= 253 && 1 <= |value| <= MAX_VALUE
      modifies this
      ensures Valid()
      ensures ok ==> Entries(name) == Pushed(old(Entries(name)), Entry(value, now + ttl))
      ensures !ok ==> name !in old(names) && |names| == MAX_TXT_NAMES && Entries(name) == []
      ensures forall n | n != name :: Entries(n) == old(Entries(n)) || Entries(n) == Live(old(Entries(n)), now)
    {
      var isNew := name !in names;
      if isNew && |names| >= MAX_TXT_NAMES {
        ExpireAll(now);
        if |names| >= MAX_TXT_NAMES { return false; }
      }
      var vals := Entries(name);
      assert name in names ==> EntriesOk(names[name]);
      PushedOk(vals, Entry(value, now + ttl));
      UpdateKeeps(names, name, Pushed(vals, Entry(value, now + ttl)));
      names := names[name := Pushed(vals, Entry(value, now + ttl))];
      return true;
    }
  }

  lemma LiveEntriesOk(es: seq<Entry>, now: int)
    ensures Live([], now) == []
    ensures EntriesOk(es) && Live(es, now) != [] ==> EntriesOk(Live(es, now))
    ensures Live(Live(es, now), now) == Live(es, now)
  {
    LiveTwice(es, now);
    forall x: Entry ensures x in Live(es, now) <==> x in es && x.exp > now { LiveMember(es, now, x); }
    if DistinctValues(es) { LiveOk(es, now); }
  }

  lemma {:induction false} LiveTwice(es: seq<Entry>, now: int)
    ensures Live(Live(es, now), now) == Live(es, now)
  {
    if es != [] {
      LiveTwice(es[1..], now);
      var rest := Live(es[1..], now);
      assert ([es[0]] + rest)[1..] == rest && [] + rest == rest;
    }
  }

  lemma RemoveShrinks(m: map<Bytes, seq<Entry>>, name: Bytes)
    requires name in m
    ensures |m - {name}| == |m| - 1
  {
    assert (m - {name}).Keys == m.Keys - {name};
  }

  lemma UpdateKeeps(m: map<Bytes, seq<Entry>>, name: Bytes, es: seq<Entry>)
    ensures |m[name := es]| == if name in m then |m| else |m| + 1
  {
    assert m[name := es].Keys == m.Keys + {name};
  }
}
