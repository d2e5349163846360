/** Which relay each deployment's own name points at (relay/api-relay.js, relayLabels): eight
    hex digits of an id make a label, and a label two deployments share points nowhere. */
module RelayLabels {
  import opened Common

  datatype Relay = Relay(name: string, sni: bool, a: Option<string>, aaaa: Option<string>)

  /** A ledger row with a well-formed id: its label, and the relay its owner chose. */
  datatype Row = Row(lab: string, chosen: string)

  predicate Eligible(r: Relay) { r.sni && (r.a.Some? || r.aaaa.Some?) }

  /** `by.get(name)`: a later relay of the same name replaces an earlier one. */
  function ByName(roster: seq<Relay>, name: string): (r: Option<Relay>)
    ensures r.Some? ==> r.value in roster && Eligible(r.value) && r.value.name == name
  {
    if roster == [] then None
    else
      var last := roster[|roster| - 1];
      if Eligible(last) && last.name == name then Some(last) else ByName(roster[..|roster| - 1], name)
  }

  function Choice(roster: seq<Relay>, byDefault: string, d: Row): Option<Relay> {
    if ByName(roster, d.chosen).Some? then ByName(roster, d.chosen) else ByName(roster, byDefault)
  }

  /** How many rows claim a label, and the last that does. */
  function Claims(rows: seq<Row>, lab: string): (n: nat)
    ensures n > 0 ==> rows != []
  {
    if rows == [] then 0 else Claims(rows[..|rows| - 1], lab) + if rows[|rows| - 1].lab == lab then 1 else 0
  }

  function Claimant(rows: seq<Row>, lab: string): (d: Row)
    requires Claims(rows, lab) > 0
    ensures d in rows && d.lab == lab
  {
    if rows[|rows| - 1].lab == lab then rows[|rows| - 1] else Claimant(rows[..|rows| - 1], lab)
  }

  /** What the label map must say of a label after these rows. */
  function Answer(rows: seq<Row>, roster: seq<Relay>, byDefault: string, lab: string): Option<Relay> {
    if Claims(rows, lab) == 1 then Choice(roster, byDefault, Claimant(rows, lab)) else None
  }

  lemma OneMore(rows: seq<Row>, i: nat, lab: string)
    requires i < |rows|
    ensures Claims(rows[..i + 1], lab) == Claims(rows[..i], lab) + if rows[i].lab == lab then 1 else 0
    ensures Claims(rows[..i + 1], lab) > 0 ==>
              Claimant(rows[..i + 1], lab) == if rows[i].lab == lab then rows[i] else Claimant(rows[..i], lab)
  {
    assert rows[..i + 1][..i] == rows[..i] && rows[..i + 1][i] == rows[i];
  }

  /** A label answers exactly when one deployment alone claims it and its relay, or the default
      one, can carry it; whatever the order of the rows, two claimants leave it to the zone. */
  method Build(rows: seq<Row>, roster: seq<Relay>, byDefault: string) returns (out: map<string, Relay>)
    ensures forall l :: l in out <==> Answer(rows, roster, byDefault, l).Some?
    ensures forall l | l in out :: Some(out[l]) == Answer(rows, roster, byDefault, l)
  {
    assert forall l :: Claims([], l) == 0;
    hide Choice, Claims, Claimant;
    assert rows[..0] == [];
    var held: map<string, Option<Relay>>, clash: set<string> := map[], {};
    for i := 0 to |rows|
      invariant forall l :: l in held <==> Claims(rows[..i], l) == 1
      invariant forall l :: l in clash <==> Claims(rows[..i], l) > 1
      invariant forall l | l in held :: held[l] == Choice(roster, byDefault, Claimant(rows[..i], l))
    {
      var d := rows[i];
      forall l: string
        ensures Claims(rows[..i + 1], l) == Claims(rows[..i], l) + if d.lab == l then 1 else 0
        ensures Claims(rows[..i + 1], l) > 0 ==>
                  Claimant(rows[..i + 1], l) == if d.lab == l then d else Claimant(rows[..i], l)
      {
        OneMore(rows, i, l);
      }
      if d.lab in held || d.lab in clash {
        held := held - {d.lab};
        clash := clash + {d.lab};
      } else {
        held := held[d.lab := Choice(roster, byDefault, d)];
      }
    }
    assert rows[..|rows|] == rows;
    out := map l | l in held && held[l].Some? :: held[l].value;
  }

  lemma {:induction false} ClaimCounts(rows: seq<Row>, i: nat)
    requires i < |rows|
    ensures Claims(rows, rows[i].lab) >= 1
  {
    if i < |rows| - 1 { ClaimCounts(rows[..|rows| - 1], i); }
  }

  /** One of two claimants never decides where the other's traffic goes. */
  lemma {:induction false} SharedLabelsAnswerNothing(rows: seq<Row>, roster: seq<Relay>, byDefault: string, i: nat, j: nat)
    requires i < j < |rows| && rows[i].lab == rows[j].lab
    ensures Claims(rows, rows[i].lab) >= 2 && Answer(rows, roster, byDefault, rows[i].lab).None?
  {
    var rest := rows[..|rows| - 1];
    if j < |rows| - 1 {
      SharedLabelsAnswerNothing(rest, roster, byDefault, i, j);
    } else {
      ClaimCounts(rest, i);
    }
  }

  /** The last eligible relay of that name, and none only if there is none. */
  lemma {:induction false} ByNameExactly(roster: seq<Relay>, name: string, i: nat)
    requires i < |roster| && Eligible(roster[i]) && roster[i].name == name
    requires forall j | i < j < |roster| :: !(Eligible(roster[j]) && roster[j].name == name)
    ensures ByName(roster, name) == Some(roster[i])
  {
    if i < |roster| - 1 {
      var n := |roster| - 1;
      assert !(Eligible(roster[n]) && roster[n].name == name);
      ByNameExactly(roster[..n], name, i);
    }
  }

  predicate Carried(roster: seq<Relay>, name: string) { exists r :: r in roster && Eligible(r) && r.name == name }

  lemma {:induction false} ByNameFinds(roster: seq<Relay>, name: string)
    ensures ByName(roster, name).Some? <==> Carried(roster, name)
  {
    if roster != [] {
      var n := |roster| - 1;
      assert roster == roster[..n] + [roster[n]];
      ByNameFinds(roster[..n], name);
    }
  }

  /** A label only one deployment claims answers with an eligible relay of the name its owner
      chose; with one of the default name only if there is none of that; and with nothing only
      if there is none of either. */
  lemma ChoiceHonoured(rows: seq<Row>, roster: seq<Relay>, byDefault: string, d: Row)
    requires d in rows && Claims(rows, d.lab) == 1
    ensures var r := Answer(rows, roster, byDefault, d.lab);
            && (r.Some? <==> Carried(roster, d.chosen) || Carried(roster, byDefault))
            && (r.Some? ==> r.value in roster && Eligible(r.value)
                            && r.value.name == if Carried(roster, d.chosen) then d.chosen else byDefault)
  {
    ByNameFinds(roster, d.chosen);
    ByNameFinds(roster, byDefault);
    SoleClaimant(rows, d);
  }

  lemma {:induction false} SoleClaimant(rows: seq<Row>, d: Row)
    requires d in rows && Claims(rows, d.lab) == 1
    ensures Claimant(rows, d.lab) == d
  {
    var n := |rows| - 1;
    var i :| 0 <= i < |rows| && rows[i] == d;
    if i < n {
      ClaimCounts(rows[..n], i);
      SoleClaimant(rows[..n], d);
    }
  }
}
