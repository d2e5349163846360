/** One wallet, one list (relay/api-relay.js, listDeployments): the rows the enclaves answered
    with, merged with the chain's own. Ids are compared lower-cased; here they are numbers. */
module DeploymentList {
  import opened Common

  /** Where a shown row comes from. */
  datatype Source = Hosted(box: Option<nat>) | Ledger

  /** Statuses that declare a deployment dead, the one a ledger row may wrongly claim, the one
      it is corrected to, and all others. */
  datatype Status = Terminal | Running | Claimed | Other

  datatype Row = Row(id: nat, status: Status, source: Source, tag: nat)

  /** A 200 answer: the enclave's registry id, when it has one, and its rows. */
  datatype Answer = Answer(box: Option<nat>, rows: seq<Row>)

  /** What the chain says of an id; runner 0 is nobody. */
  datatype Runner = Runner(runner: nat, leaseLive: bool)

  type Runners = map<nat, Runner>

  /** A ledger row with the status ledgerView gives it. */
  datatype LedgerRow = LedgerRow(id: nat, owner: nat, runner: nat, status: Status, tag: nat)

  // --- the rules ----------------------------------------------------------------------------------

  /** A dead row from a box the chain says is not the runner of a live lease. */
  predicate Contradicted(rs: Runners, box: Option<nat>, row: Row) {
    row.status.Terminal? && row.id in rs && rs[row.id].leaseLive && rs[row.id].runner != 0
    && box.Some? && box.value != rs[row.id].runner
  }

  /** Does this row replace one already shown for its id? */
  predicate Wins(rs: Runners, box: Option<nat>, row: Row) {
    if row.id in rs && box.Some? then box.value == rs[row.id].runner else !row.status.Terminal?
  }

  /** The list so far: `at` finds the row shown for an id. */
  datatype Merge = Merge(data: seq<Row>, at: map<nat, nat>, hostedBy: map<nat, set<nat>>)

  const Empty := Merge([], map[], map[])

  function Take(m: Merge, rs: Runners, box: Option<nat>, row: Row): Merge {
    if Contradicted(rs, box, row) then m
    else if row.id !in m.at then m.(at := m.at[row.id := |m.data|], data := m.data + [row])
    else if Wins(rs, box, row) && m.at[row.id] < |m.data| then m.(data := m.data[m.at[row.id] := row])
    else m
  }

  function TakeRows(m: Merge, rs: Runners, box: Option<nat>, rows: seq<Row>): Merge
    decreases |rows|
  {
    if rows == [] then m else TakeRows(Take(m, rs, box, rows[0]), rs, box, rows[1..])
  }

  /** The ids an answer counts as hosted. */
  function HostedIds(rs: Runners, a: Answer): set<nat> {
    set r | r in a.rows && !Contradicted(rs, a.box, r) :: r.id
  }

  function TakeAnswer(m: Merge, rs: Runners, a: Answer): Merge {
    var m1 := TakeRows(m, rs, a.box, a.rows);
    if a.box.Some? then m1.(hostedBy := m1.hostedBy[a.box.value := HostedIds(rs, a)]) else m1
  }

  function TakeAnswers(m: Merge, rs: Runners, answers: seq<Answer>): Merge
    decreases |answers|
  {
    if answers == [] then m else TakeAnswers(TakeAnswer(m, rs, answers[0]), rs, answers[1..])
  }

  /** A lease the runner itself does not list for its own owner serves nothing. */
  function View(m: Merge, d: LedgerRow, isTokenOwner: bool): Row {
    var stranded := d.status.Running? && isTokenOwner && d.runner in m.hostedBy && d.id !in m.hostedBy[d.runner];
    Row(d.id, if stranded then Claimed else d.status, Ledger, d.tag)
  }

  function LedgerRows(m: Merge, ledger: seq<LedgerRow>, owner: nat, isTokenOwner: bool): seq<Row> {
    if ledger == [] then []
    else
      (if ledger[0].owner == owner && ledger[0].id !in m.at then [View(m, ledger[0], isTokenOwner)] else [])
      + LedgerRows(m, ledger[1..], owner, isTokenOwner)
  }

  function List(rs: Runners, answers: seq<Answer>, ledger: seq<LedgerRow>, owner: nat, isTokenOwner: bool): seq<Row> {
    var m := TakeAnswers(Empty, rs, answers);
    m.data + LedgerRows(m, ledger, owner, isTokenOwner)
  }

  // --- the loops -------------------------------------------------------------------------------------

  lemma NoIds(rs: Runners, box: Option<nat>)
    ensures HostedIds(rs, Answer(box, [])) == {}
  {}

  lemma OneMoreId(rs: Runners, box: Option<nat>, rows: seq<Row>, i: nat)
    requires i < |rows|
    ensures HostedIds(rs, Answer(box, rows[..i + 1]))
            == HostedIds(rs, Answer(box, rows[..i])) + if Contradicted(rs, box, rows[i]) then {} else {rows[i].id}
  {
    assert rows[..i + 1] == rows[..i] + [rows[i]];
    hide Contradicted;
  }

  method MergeRows(data0: seq<Row>, at0: map<nat, nat>, rs: Runners, box: Option<nat>, rows: seq<Row>)
    returns (data: seq<Row>, at: map<nat, nat>, ids: set<nat>)
    requires AtOk(Merge(data0, at0, map[]))
    ensures Merge(data, at, map[]) == TakeRows(Merge(data0, at0, map[]), rs, box, rows)
    ensures AtOk(Merge(data, at, map[])) && ids == HostedIds(rs, Answer(box, rows))
  {
    hide Contradicted, Wins, HostedIds;
    data, at, ids := data0, at0, {};
    NoIds(rs, box);
    assert rows[..0] == [];
    for i := 0 to |rows|
      invariant TakeRows(Merge(data, at, map[]), rs, box, rows[i..]) == TakeRows(Merge(data0, at0, map[]), rs, box, rows)
      invariant AtOk(Merge(data, at, map[])) && ids == HostedIds(rs, Answer(box, rows[..i]))
    {
      var row := rows[i];
      assert rows[i..][0] == row && rows[i..][1..] == rows[i + 1..];
      OneMoreId(rs, box, rows, i);
      TakeKeepsAt(Merge(data, at, map[]), rs, box, row);
      if Contradicted(rs, box, row) { continue; }
      if row.id !in at {
        at := at[row.id := |data|];
        data := data + [row];
      } else if Wins(rs, box, row) {
        data := data[at[row.id] := row];
      }
      ids := ids + {row.id};
    }
    assert rows[..|rows|] == rows;
  }

  /** listDeployments past the fan-out. */
  method ListDeployments(rs: Runners, answers: seq<Answer>, ledger: seq<LedgerRow>, owner: nat, isTokenOwner: bool)
    returns (data: seq<Row>)
    ensures data == List(rs, answers, ledger, owner, isTokenOwner)
  {
    hide TakeRows, HostedIds, View;
    var at: map<nat, nat>, hostedBy: map<nat, set<nat>> := map[], map[];
    data := [];
    for i := 0 to |answers|
      invariant TakeAnswers(Merge(data, at, hostedBy), rs, answers[i..]) == TakeAnswers(Empty, rs, answers)
      invariant AtOk(Merge(data, at, map[]))
    {
      var a := answers[i];
      assert answers[i..][0] == a && answers[i..][1..] == answers[i + 1..];
      HostedAside(Merge(data, at, hostedBy), rs, a.box, a.rows);
      var ids: set<nat>;
      data, at, ids := MergeRows(data, at, rs, a.box, a.rows);
      if a.box.Some? { hostedBy := hostedBy[a.box.value := ids]; }
    }
    ghost var m := Merge(data, at, hostedBy);
    ghost var shown := data;
    assert shown + [] == shown && m == TakeAnswers(Empty, rs, answers);
    for i := 0 to |ledger|
      invariant data + LedgerRows(m, ledger[i..], owner, isTokenOwner) == shown + LedgerRows(m, ledger, owner, isTokenOwner)
    {
      var d := ledger[i];
      assert ledger[i..][0] == d && ledger[i..][1..] == ledger[i + 1..];
      ghost var rest := LedgerRows(m, ledger[i + 1..], owner, isTokenOwner);
      if d.owner != owner || d.id in at {
        assert [] + rest == rest;
        continue;
      }
      var view := LedgerView(at, hostedBy, d, isTokenOwner, m);
      assert data + ([view] + rest) == (data + [view]) + rest;
      data := data + [view];
    }
    assert data + [] == data;
  }

  method LedgerView(at: map<nat, nat>, hostedBy: map<nat, set<nat>>, d: LedgerRow, isTokenOwner: bool, ghost m: Merge)
    returns (view: Row)
    requires m.at == at && m.hostedBy == hostedBy
    ensures view == View(m, d, isTokenOwner)
  {
    view := Row(d.id, d.status, Ledger, d.tag);
    if view.status == Running && isTokenOwner {
      if d.runner in hostedBy && d.id !in hostedBy[d.runner] { view := view.(status := Claimed); }
    }
  }

  /** Merging rows does not look at who hosts what. */
  lemma {:induction false} HostedAside(m: Merge, rs: Runners, box: Option<nat>, rows: seq<Row>)
    ensures TakeRows(m, rs, box, rows) == TakeRows(m.(hostedBy := map[]), rs, box, rows).(hostedBy := m.hostedBy)
    decreases |rows|
  {
    if rows != [] { HostedAside(Take(m, rs, box, rows[0]), rs, box, rows[1..]); }
  }

  // --- the invariant -----------------------------------------------------------------------------------

  /** `at` points every shown id at its one row. */
  predicate AtOk(m: Merge) {
    && (forall id | id in m.at :: m.at[id] < |m.data| && m.data[m.at[id]].id == id)
    && (forall i | 0 <= i < |m.data| :: m.data[i].id in m.at && m.at[m.data[i].id] == i)
  }

  lemma TakeKeepsAt(m: Merge, rs: Runners, box: Option<nat>, row: Row)
    requires AtOk(m)
    ensures AtOk(Take(m, rs, box, row))
  {
    hide Contradicted, Wins;
    var t := Take(m, rs, box, row);
    if row.id !in m.at {
      forall k | 0 <= k < |t.data| ensures t.data[k].id in t.at && t.at[t.data[k].id] == k {
        if k < |m.data| { assert t.data[k] == m.data[k]; }
      }
    }
  }

  lemma {:induction false} RowsKeepAt(m: Merge, rs: Runners, box: Option<nat>, rows: seq<Row>)
    requires AtOk(m)
    ensures AtOk(TakeRows(m, rs, box, rows))
    decreases |rows|
  {
    hide AtOk, Take;
    if rows != [] {
      TakeKeepsAt(m, rs, box, rows[0]);
      RowsKeepAt(Take(m, rs, box, rows[0]), rs, box, rows[1..]);
    }
  }

  lemma {:induction false} AnswersKeepAt(m: Merge, rs: Runners, answers: seq<Answer>)
    requires AtOk(m)
    ensures AtOk(TakeAnswers(m, rs, answers))
    decreases |answers|
  {
    if answers != [] {
      RowsKeepAt(m, rs, answers[0].box, answers[0].rows);
      AnswersKeepAt(TakeAnswer(m, rs, answers[0]), rs, answers[1..]);
    }
  }

  // --- the row shown for one id ---------------------------------------------------------------------------

  function ShownIn(m: Merge, id: nat): Option<Row> {
    if id in m.at && m.at[id] < |m.data| then Some(m.data[m.at[id]]) else None
  }

  /** The rows of an answer that speak for an id. */
  function Candidates(rs: Runners, box: Option<nat>, rows: seq<Row>, id: nat): seq<Row> {
    if rows == [] then []
    else (if rows[0].id == id && !Contradicted(rs, box, rows[0]) then [rows[0]] else []) + Candidates(rs, box, rows[1..], id)
  }

  /** One candidate after another: the first is shown until a later one wins. */
  function Push(o: Option<Row>, rs: Runners, box: Option<nat>, cs: seq<Row>): Option<Row>
    decreases |cs|
  {
    if cs == [] then o
    else Push(if o.None? || Wins(rs, box, cs[0]) then Some(cs[0]) else o, rs, box, cs[1..])
  }

  function Shown(o: Option<Row>, rs: Runners, answers: seq<Answer>, id: nat): Option<Row>
    decreases |answers|
  {
    if answers == [] then o
    else Shown(Push(o, rs, answers[0].box, Candidates(rs, answers[0].box, answers[0].rows, id)), rs, answers[1..], id)
  }

  lemma {:induction false} RowsShow(m: Merge, rs: Runners, box: Option<nat>, rows: seq<Row>, id: nat)
    requires AtOk(m)
    ensures ShownIn(TakeRows(m, rs, box, rows), id) == Push(ShownIn(m, id), rs, box, Candidates(rs, box, rows, id))
    decreases |rows|
  {
    if rows != [] {
      TakeKeepsAt(m, rs, box, rows[0]);
      TakeShows(m, rs, box, rows[0], id);
      hide Take, Contradicted, Wins, AtOk, ShownIn;
      RowsShow(Take(m, rs, box, rows[0]), rs, box, rows[1..], id);
      var rest := Candidates(rs, box, rows[1..], id);
      if rows[0].id == id && !Contradicted(rs, box, rows[0]) {
        assert ([rows[0]] + rest)[1..] == rest;
      } else {
        assert [] + rest == rest;
      }
    }
  }

  lemma TakeShows(m: Merge, rs: Runners, box: Option<nat>, row: Row, id: nat)
    requires AtOk(m)
    ensures ShownIn(Take(m, rs, box, row), id)
            == if row.id != id || Contradicted(rs, box, row) then ShownIn(m, id)
               else if ShownIn(m, id).None? || Wins(rs, box, row) then Some(row) else ShownIn(m, id)
  {
    hide Contradicted, Wins;
  }

  lemma {:induction false} AnswersShow(m: Merge, rs: Runners, answers: seq<Answer>, id: nat)
    requires AtOk(m)
    ensures ShownIn(TakeAnswers(m, rs, answers), id) == Shown(ShownIn(m, id), rs, answers, id)
    decreases |answers|
  {
    if answers != [] {
      var a := answers[0];
      RowsKeepAt(m, rs, a.box, a.rows);
      RowsShow(m, rs, a.box, a.rows, id);
      AnswersShow(TakeAnswer(m, rs, a), rs, answers[1..], id);
    }
  }

  /** The list shows, for each id, the row the answers settle on in their order. */
  lemma ListShows(rs: Runners, answers: seq<Answer>, id: nat)
    ensures var m := TakeAnswers(Empty, rs, answers);
            AtOk(m) && ShownIn(m, id) == Shown(None, rs, answers, id) && (id in m.at <==> Shown(None, rs, answers, id).Some?)
  {
    AnswersKeepAt(Empty, rs, answers);
    AnswersShow(Empty, rs, answers, id);
  }

  /** The one row there is for an id is shown, unless it declares dead what the chain says another
      box runs under a live lease. */
  lemma SoleRowShownExactly(rs: Runners, box: Option<nat>, row: Row)
    ensures var disowned := row.status.Terminal? && row.id in rs && rs[row.id].leaseLive && rs[row.id].runner != 0
                            && box.Some? && box.value != rs[row.id].runner;
            Shown(None, rs, [Answer(box, [row])], row.id) == if disowned then None else Some(row)
  {
    assert [row][1..] == [] && [Answer(box, [row])][1..] == [];
    assert Candidates(rs, box, [], row.id) == [];
    var cs := Candidates(rs, box, [row], row.id);
    assert cs == if Contradicted(rs, box, row) then [] else [row];
    assert Push(Some(row), rs, box, []) == Some(row);
    assert Push(None, rs, box, cs) == if Contradicted(rs, box, row) then None else Some(row);
    assert Shown(Push(None, rs, box, cs), rs, [], row.id) == Push(None, rs, box, cs);
  }

  // --- main results: the whole list -------------------------------------------------------------------------

  predicate DistinctIds(rows: seq<Row>) { forall i, j | 0 <= i < j < |rows| :: rows[i].id != rows[j].id }

  predicate DistinctLedger(ledger: seq<LedgerRow>) { forall i, j | 0 <= i < j < |ledger| :: ledger[i].id != ledger[j].id }

  lemma {:induction false} LedgerMember(m: Merge, ledger: seq<LedgerRow>, owner: nat, isTokenOwner: bool, r: Row)
    ensures r in LedgerRows(m, ledger, owner, isTokenOwner)
            <==> exists d :: d in ledger && d.owner == owner && d.id !in m.at && r == View(m, d, isTokenOwner)
  {
    hide View;
    if ledger != [] {
      LedgerMember(m, ledger[1..], owner, isTokenOwner, r);
      assert ledger == [ledger[0]] + ledger[1..];
    }
  }

  lemma {:induction false} LedgerDistinct(m: Merge, ledger: seq<LedgerRow>, owner: nat, isTokenOwner: bool)
    requires DistinctLedger(ledger)
    ensures DistinctIds(LedgerRows(m, ledger, owner, isTokenOwner))
  {
    if ledger != [] {
      assert forall i | 0 <= i < |ledger[1..]| :: ledger[1..][i] == ledger[i + 1];
      LedgerDistinct(m, ledger[1..], owner, isTokenOwner);
      var rest := LedgerRows(m, ledger[1..], owner, isTokenOwner);
      forall j | 0 <= j < |rest| ensures rest[j].id != ledger[0].id {
        assert rest[j] in rest;
        LedgerMember(m, ledger[1..], owner, isTokenOwner, rest[j]);
      }
    }
  }

  /** No id is shown twice. */
  lemma NoIdTwice(rs: Runners, answers: seq<Answer>, ledger: seq<LedgerRow>, owner: nat, isTokenOwner: bool)
    requires DistinctLedger(ledger)
    ensures DistinctIds(List(rs, answers, ledger, owner, isTokenOwner))
  {
    AnswersKeepAt(Empty, rs, answers);
    var m := TakeAnswers(Empty, rs, answers);
    var rows := LedgerRows(m, ledger, owner, isTokenOwner);
    LedgerDistinct(m, ledger, owner, isTokenOwner);
    forall j | 0 <= j < |rows| ensures rows[j].id !in m.at {
      assert rows[j] in rows;
      LedgerMember(m, ledger, owner, isTokenOwner, rows[j]);
    }
    hide TakeAnswers, LedgerRows;
  }

  /** Rows carry the box that sent them. */
  predicate Sent(answers: seq<Answer>) {
    forall i | 0 <= i < |answers| :: forall r | r in answers[i].rows :: r.source == Hosted(answers[i].box)
  }

  /** A shown row was not contradicted by the chain. */
  ghost predicate Credible(rs: Runners, row: Row) { row.source.Hosted? ==> !Contradicted(rs, row.source.box, row) }

  lemma {:induction false} PushCredible(o: Option<Row>, rs: Runners, box: Option<nat>, rows: seq<Row>, id: nat)
    requires o.Some? ==> Credible(rs, o.value) && o.value.source.Hosted?
    requires forall r :: r in rows ==> r.source == Hosted(box)
    ensures var p := Push(o, rs, box, Candidates(rs, box, rows, id));
            p.Some? ==> Credible(rs, p.value) && p.value.source.Hosted?
    decreases |rows|
  {
    hide Contradicted, Wins;
    if rows != [] {
      var rest := Candidates(rs, box, rows[1..], id);
      if rows[0].id == id && !Contradicted(rs, box, rows[0]) {
        assert rows[0] in rows && ([rows[0]] + rest)[1..] == rest;
        PushCredible(if o.None? || Wins(rs, box, rows[0]) then Some(rows[0]) else o, rs, box, rows[1..], id);
      } else {
        assert [] + rest == rest;
        PushCredible(o, rs, box, rows[1..], id);
      }
    }
  }

  lemma {:induction false} ShownCredible(o: Option<Row>, rs: Runners, answers: seq<Answer>, id: nat)
    requires Sent(answers) && (o.Some? ==> Credible(rs, o.value) && o.value.source.Hosted?)
    ensures var p := Shown(o, rs, answers, id);
            p.Some? ==> Credible(rs, p.value) && p.value.source.Hosted?
    decreases |answers|
  {
    hide Credible, Candidates, Push;
    if answers != [] {
      var a := answers[0];
      PushCredible(o, rs, a.box, a.rows, id);
      assert Sent(answers[1..]) by { assert forall i | 0 <= i < |answers[1..]| :: answers[1..][i] == answers[i + 1]; }
      ShownCredible(Push(o, rs, a.box, Candidates(rs, a.box, a.rows, id)), rs, answers[1..], id);
    }
  }

  /** No row declaring a deployment dead is shown from a registered box that is not the runner
      of its live lease. */
  lemma NoStaleTerminalRow(rs: Runners, answers: seq<Answer>, ledger: seq<LedgerRow>, owner: nat, isTokenOwner: bool, i: nat)
    requires Sent(answers) && i < |List(rs, answers, ledger, owner, isTokenOwner)|
    ensures var row := List(rs, answers, ledger, owner, isTokenOwner)[i];
            (row.source.Hosted? && row.status.Terminal? && row.id in rs && rs[row.id].leaseLive && rs[row.id].runner != 0
             && row.source.box.Some?) ==> row.source.box.value == rs[row.id].runner
  {
    var m := TakeAnswers(Empty, rs, answers);
    var rows := LedgerRows(m, ledger, owner, isTokenOwner);
    if i < |m.data| {
      ListShows(rs, answers, m.data[i].id);
      ShownCredible(None, rs, answers, m.data[i].id);
    } else {
      assert rows[i - |m.data|] in rows;
      LedgerMember(m, ledger, owner, isTokenOwner, rows[i - |m.data|]);
    }
    hide TakeAnswers, LedgerRows, Shown;
  }

  // --- main result: the order of the answers ------------------------------------------------------------------

  predicate LiveFor(rs: Runners, a: Answer, id: nat) { exists r :: r in Candidates(rs, a.box, a.rows, id) && !r.status.Terminal? }

  lemma {:induction false} CandidatesOf(rs: Runners, box: Option<nat>, rows: seq<Row>, id: nat, r: Row)
    requires r in Candidates(rs, box, rows, id)
    ensures r in rows && r.id == id
  {
    if rows != [] {
      assert rows == [rows[0]] + rows[1..];
      if r in Candidates(rs, box, rows[1..], id) { CandidatesOf(rs, box, rows[1..], id, r); }
    }
  }

  /** Candidates that all win leave the last of them; candidates that all lose, what there was. */
  lemma {:induction false} PushAll(o: Option<Row>, rs: Runners, box: Option<nat>, cs: seq<Row>)
    ensures (forall r :: r in cs ==> Wins(rs, box, r)) && cs != [] ==> Push(o, rs, box, cs) == Some(cs[|cs| - 1])
    ensures (forall r :: r in cs ==> !Wins(rs, box, r)) && o.Some? ==> Push(o, rs, box, cs) == o
    decreases |cs|
  {
    hide Wins;
    if cs != [] {
      assert cs == [cs[0]] + cs[1..];
      PushAll(if o.None? || Wins(rs, box, cs[0]) then Some(cs[0]) else o, rs, box, cs[1..]);
    }
  }

  /** A winner anywhere in a list leaves some winner, or the first of the list. */
  lemma {:induction false} PushFrom(o: Option<Row>, rs: Runners, box: Option<nat>, cs: seq<Row>)
    ensures (exists r :: r in cs && Wins(rs, box, r)) ==> Push(o, rs, box, cs).Some? && Push(o, rs, box, cs).value in cs
    ensures Push(o, rs, box, cs) == o || (Push(o, rs, box, cs).Some? && Push(o, rs, box, cs).value in cs)
    decreases |cs|
  {
    hide Wins;
    if cs != [] {
      assert cs == [cs[0]] + cs[1..];
      PushFrom(if o.None? || Wins(rs, box, cs[0]) then Some(cs[0]) else o, rs, box, cs[1..]);
    }
  }

  /** None of an answer's rows for the id would replace another. */
  ghost predicate Quiet(rs: Runners, a: Answer, id: nat) {
    forall r :: r in Candidates(rs, a.box, a.rows, id) ==> !Wins(rs, a.box, r)
  }

  function Last(rs: Runners, y: Answer, id: nat): Row
    requires Candidates(rs, y.box, y.rows, id) != []
  {
    var cs := Candidates(rs, y.box, y.rows, id);
    cs[|cs| - 1]
  }

  predicate Speaks(rs: Runners, y: Answer, id: nat) {
    id in rs && y.box == Some(rs[id].runner) && Candidates(rs, y.box, y.rows, id) != []
  }

  lemma RunnerWins(rs: Runners, y: Answer, id: nat, o: Option<Row>)
    requires Speaks(rs, y, id)
    ensures Push(o, rs, y.box, Candidates(rs, y.box, y.rows, id)) == Some(Last(rs, y, id))
  {
    var cs := Candidates(rs, y.box, y.rows, id);
    forall r | r in cs ensures Wins(rs, y.box, r) { CandidatesOf(rs, y.box, y.rows, id, r); }
    PushAll(o, rs, y.box, cs);
  }

  /** Among quiet answers the runner's row settles it, wherever it comes. */
  lemma {:induction false} SettlesOn(o: Option<Row>, rs: Runners, bs: seq<Answer>, id: nat, y: Answer)
    requires Speaks(rs, y, id) && (y in bs || o == Some(Last(rs, y, id)))
    requires forall a :: a in bs ==> a == y || Quiet(rs, a, id)
    ensures Shown(o, rs, bs, id) == Some(Last(rs, y, id))
    decreases |bs|
  {
    if bs != [] {
      var a := bs[0];
      assert bs == [a] + bs[1..];
      var next := Push(o, rs, a.box, Candidates(rs, a.box, a.rows, id));
      if a == y {
        RunnerWins(rs, y, id, o);
      } else {
        assert Quiet(rs, a, id);
        PushAll(o, rs, a.box, Candidates(rs, a.box, a.rows, id));
      }
      hide Push, Candidates, Quiet;
      SettlesOn(next, rs, bs[1..], id, y);
    }
  }

  predicate DistinctBoxes(answers: seq<Answer>) {
    forall i, j | 0 <= i < j < |answers| :: answers[i].box.Some? ==> answers[i].box != answers[j].box
  }

  lemma OthersQuiet(rs: Runners, a: Answer, y: Answer, id: nat)
    requires Speaks(rs, y, id) && a.box != y.box && (a.box.None? ==> !LiveFor(rs, a, id))
    ensures Quiet(rs, a, id)
  {
    forall r | r in Candidates(rs, a.box, a.rows, id) ensures !Wins(rs, a.box, r) {
      CandidatesOf(rs, a.box, a.rows, id, r);
    }
  }

  lemma {:induction false} ShownConcat(o: Option<Row>, rs: Runners, a: seq<Answer>, b: seq<Answer>, id: nat)
    ensures Shown(o, rs, a + b, id) == Shown(Shown(o, rs, a, id), rs, b, id)
    decreases |a|
  {
    hide Push, Candidates;
    if a == [] {
      assert a + b == b;
    } else {
      assert (a + b)[1..] == a[1..] + b;
      ShownConcat(Push(o, rs, a[0].box, Candidates(rs, a[0].box, a[0].rows, id)), rs, a[1..], b, id);
    }
  }

  function Remove(s: seq<Answer>, i: nat): seq<Answer>
    requires i < |s|
  {
    s[..i] + s[i + 1..]
  }

  lemma Removed(s: seq<Answer>, i: nat)
    requires i < |s|
    ensures multiset(s) == multiset(Remove(s, i)) + multiset{s[i]}
  {
    assert s == s[..i] + [s[i]] + s[i + 1..];
  }

  function PushAnswer(o: Option<Row>, rs: Runners, a: Answer, id: nat): Option<Row> {
    Push(o, rs, a.box, Candidates(rs, a.box, a.rows, id))
  }

  lemma ShownTwo(o: Option<Row>, rs: Runners, a: Answer, b: Answer, id: nat)
    ensures Shown(o, rs, [a, b], id) == PushAnswer(PushAnswer(o, rs, a, id), rs, b, id)
  {
    hide Push, Candidates;
    assert [a, b][1..] == [b] && [b][1..] == [];
    var p := PushAnswer(o, rs, a, id);
    assert Shown(PushAnswer(p, rs, b, id), rs, [], id) == PushAnswer(p, rs, b, id);
    assert Shown(p, rs, [b], id) == PushAnswer(p, rs, b, id);
    assert Shown(o, rs, [a, b], id) == Shown(p, rs, [b], id);
  }

  lemma NamelessWins(o: Option<Row>, rs: Runners, x: Answer, id: nat)
    requires x.box.None? && LiveFor(rs, x, id)
    ensures PushAnswer(o, rs, x, id).Some? && PushAnswer(o, rs, x, id).value in x.rows
  {
    var cs := Candidates(rs, x.box, x.rows, id);
    var r :| r in cs && !r.status.Terminal?;
    assert Wins(rs, x.box, r);
    PushFrom(o, rs, x.box, cs);
    CandidatesOf(rs, x.box, x.rows, id, PushAnswer(o, rs, x, id).value);
  }

  /** An answer without a registry id that reports the deployment live beats the runner's row
      when it comes later, and loses to it when earlier. */
  lemma BothOrders(rs: Runners, rest: seq<Answer>, x: Answer, y: Answer, id: nat)
    requires Speaks(rs, y, id) && x.box.None? && LiveFor(rs, x, id)
    ensures Shown(None, rs, rest + [x, y], id) == Some(Last(rs, y, id))
    ensures Shown(None, rs, rest + [y, x], id).Some? && Shown(None, rs, rest + [y, x], id).value in x.rows
  {
    hide Shown, LiveFor, Push, Candidates, Speaks;
    var o := Shown(None, rs, rest, id);
    ShownConcat(None, rs, rest, [x, y], id);
    ShownConcat(None, rs, rest, [y, x], id);
    ShownTwo(o, rs, x, y, id);
    ShownTwo(o, rs, y, x, id);
    RunnerWins(rs, y, id, PushAnswer(o, rs, x, id));
    NamelessWins(PushAnswer(o, rs, y, id), rs, x, id);
  }

  lemma TwoOut(answers: seq<Answer>, j: nat, k: nat) returns (rest: seq<Answer>)
    requires j < |answers| && k < |answers| && j != k
    ensures multiset(rest + [answers[j], answers[k]]) == multiset(answers) == multiset(rest + [answers[k], answers[j]])
  {
    var one := Remove(answers, k);
    var j' := if j < k then j else j - 1;
    assert one[j'] == answers[j];
    rest := Remove(one, j');
    Removed(answers, k);
    Removed(one, j');
    hide Remove;
    PairAdds(rest, answers[j], answers[k]);
    PairAdds(rest, answers[k], answers[j]);
  }

  lemma PairAdds(rest: seq<Answer>, x: Answer, y: Answer)
    ensures multiset(rest + [x, y]) == multiset(rest) + multiset{x} + multiset{y}
  {}

  lemma OrderMatters(rs: Runners, answers: seq<Answer>, id: nat, j: nat, k: nat)
    requires Sent(answers) && j < |answers| && k < |answers| && Speaks(rs, answers[k], id)
    requires answers[j].box.None? && LiveFor(rs, answers[j], id)
    ensures exists bs :: multiset(bs) == multiset(answers) && Shown(None, rs, bs, id) != Some(Last(rs, answers[k], id))
  {
    var x, y := answers[j], answers[k];
    CandidatesOf(rs, y.box, y.rows, id, Last(rs, y, id));
    assert Last(rs, y, id).source == Hosted(y.box);
    assert y.box.Some?;
    hide LiveFor, Shown, Candidates, Speaks, Last;
    var rest := TwoOut(answers, j, k);
    BothOrders(rs, rest, x, y, id);
    var bs := rest + [y, x];
    assert Shown(None, rs, bs, id).value.source == Hosted(x.box);
  }

  /** When the runner answered for an id, the row shown for it does not depend on the order in
      which the enclaves answered, and is the runner's, exactly unless some enclave without a
      registry id reports the deployment live: for that one the chain is not consulted. */
  lemma OrderMattersExactly(rs: Runners, answers: seq<Answer>, id: nat, k: nat)
    requires Sent(answers) && DistinctBoxes(answers) && k < |answers| && Speaks(rs, answers[k], id)
    ensures (forall bs | multiset(bs) == multiset(answers) :: Shown(None, rs, bs, id) == Some(Last(rs, answers[k], id)))
            <==> forall i | 0 <= i < |answers| :: answers[i].box.None? ==> !LiveFor(rs, answers[i], id)
  {
    var y := answers[k];
    if forall i | 0 <= i < |answers| :: answers[i].box.None? ==> !LiveFor(rs, answers[i], id) {
      forall bs | multiset(bs) == multiset(answers) ensures Shown(None, rs, bs, id) == Some(Last(rs, y, id)) {
        forall a | a in bs ensures a == y || Quiet(rs, a, id) {
          assert a in multiset(bs) && a in multiset(answers);
          var i :| 0 <= i < |answers| && answers[i] == a;
          if i != k { OthersQuiet(rs, a, y, id); }
        }
        assert y in multiset(answers) && y in multiset(bs);
        SettlesOn(None, rs, bs, id, y);
      }
    } else {
      var j :| 0 <= j < |answers| && answers[j].box.None? && LiveFor(rs, answers[j], id);
      OrderMatters(rs, answers, id, j, k);
    }
  }

  // --- what a shown ledger row may claim --------------------------------------------------------------------

  lemma {:induction false} HostedKept(m: Merge, rs: Runners, answers: seq<Answer>, box: nat)
    requires box in m.hostedBy || exists i | 0 <= i < |answers| :: answers[i].box == Some(box)
    ensures box in TakeAnswers(m, rs, answers).hostedBy
    decreases |answers|
  {
    if answers != [] {
      HostedAside(m, rs, answers[0].box, answers[0].rows);
      if exists i | 0 <= i < |answers| :: answers[i].box == Some(box) {
        var i :| 0 <= i < |answers| && answers[i].box == Some(box);
        if i > 0 { assert answers[1..][i - 1] == answers[i]; }
      }
      HostedKept(TakeAnswer(m, rs, answers[0]), rs, answers[1..], box);
    }
  }

  /** Hosting is only recorded for ids the list shows a hosted row for. */
  ghost predicate HostedShown(m: Merge) { forall b | b in m.hostedBy :: m.hostedBy[b] <= m.at.Keys }

  lemma {:induction false} RowsShowHosted(m: Merge, rs: Runners, box: Option<nat>, rows: seq<Row>)
    ensures var t := TakeRows(m, rs, box, rows);
            m.at.Keys <= t.at.Keys && t.hostedBy == m.hostedBy && HostedIds(rs, Answer(box, rows)) <= t.at.Keys
    decreases |rows|
  {
    hide Contradicted, Wins;
    if rows != [] {
      RowsShowHosted(Take(m, rs, box, rows[0]), rs, box, rows[1..]);
      assert rows == [rows[0]] + rows[1..];
    }
  }

  lemma {:induction false} AnswersShowHosted(m: Merge, rs: Runners, answers: seq<Answer>)
    requires HostedShown(m)
    ensures HostedShown(TakeAnswers(m, rs, answers))
    decreases |answers|
  {
    hide TakeRows, HostedIds;
    if answers != [] {
      var a := answers[0];
      RowsShowHosted(m, rs, a.box, a.rows);
      assert HostedIds(rs, Answer(a.box, a.rows)) == HostedIds(rs, a) by { assert Answer(a.box, a.rows) == a; }
      AnswersShowHosted(TakeAnswer(m, rs, a), rs, answers[1..]);
    }
  }

  /** For the token's own owner, a ledger row reads "running" only while its runner has not
      answered: an answering runner either shows its own row or makes it "claimed". */
  lemma RunningIsNotContradicted(rs: Runners, answers: seq<Answer>, ledger: seq<LedgerRow>, owner: nat, d: LedgerRow, i: nat)
    requires DistinctLedger(ledger) && d in ledger && d.owner == owner
    requires i < |List(rs, answers, ledger, owner, true)|
    requires List(rs, answers, ledger, owner, true)[i] == Row(d.id, Running, Ledger, d.tag)
    requires Sent(answers)
    ensures forall j | 0 <= j < |answers| :: answers[j].box != Some(d.runner)
  {
    var m := TakeAnswers(Empty, rs, answers);
    var rows := LedgerRows(m, ledger, owner, true);
    AnswersShowHosted(Empty, rs, answers);
    if i < |m.data| {
      DataHosted(rs, answers, i);
    } else {
      var row := rows[i - |m.data|];
      assert row in rows;
      LedgerMember(m, ledger, owner, true, row);
      var e :| e in ledger && e.owner == owner && e.id !in m.at && row == View(m, e, true);
      assert e == d;
      forall j | 0 <= j < |answers| ensures answers[j].box != Some(d.runner) {
        if answers[j].box == Some(d.runner) { HostedKept(Empty, rs, answers, d.runner); }
      }
    }
  }

  lemma {:induction false} HostedAnswered(m: Merge, rs: Runners, answers: seq<Answer>, box: nat)
    requires box in TakeAnswers(m, rs, answers).hostedBy
    ensures box in m.hostedBy || exists i | 0 <= i < |answers| :: answers[i].box == Some(box)
    decreases |answers|
  {
    if answers != [] {
      HostedAside(m, rs, answers[0].box, answers[0].rows);
      HostedAnswered(TakeAnswer(m, rs, answers[0]), rs, answers[1..], box);
      if exists i | 0 <= i < |answers[1..]| :: answers[1..][i].box == Some(box) {
        var i :| 0 <= i < |answers[1..]| && answers[1..][i].box == Some(box);
        assert answers[i + 1].box == Some(box);
      }
    }
  }

  ghost predicate HasAnswered(answers: seq<Answer>, box: nat) { exists j | 0 <= j < |answers| :: answers[j].box == Some(box) }

  /** Every deployment the chain has for the owner is shown, and by NoIdTwice exactly once: by
      an enclave's row when one speaks for it, else by the ledger's own, whose "running" is
      taken back to "claimed" exactly if the token's owner asks and the runner has answered. */
  lemma EveryLedgerRowShown(rs: Runners, answers: seq<Answer>, ledger: seq<LedgerRow>, owner: nat, isTokenOwner: bool,
                            d: LedgerRow) returns (i: nat)
    requires d in ledger && d.owner == owner
    ensures var rows := List(rs, answers, ledger, owner, isTokenOwner);
            && i < |rows| && rows[i].id == d.id
            && match Shown(None, rs, answers, d.id)
               case Some(row) => rows[i] == row
               case None =>
                 var takenBack := d.status.Running? && isTokenOwner && HasAnswered(answers, d.runner);
                 rows[i] == Row(d.id, if takenBack then Claimed else d.status, Ledger, d.tag)
  {
    ListShows(rs, answers, d.id);
    var m := TakeAnswers(Empty, rs, answers);
    AnswersShowHosted(Empty, rs, answers);
    if HasAnswered(answers, d.runner) { HostedKept(Empty, rs, answers, d.runner); }
    if d.runner in m.hostedBy { HostedAnswered(Empty, rs, answers, d.runner); }
    hide TakeAnswers, Shown;
    if d.id in m.at {
      i := m.at[d.id];
    } else {
      var rows, view := LedgerRows(m, ledger, owner, isTokenOwner), View(m, d, isTokenOwner);
      LedgerMember(m, ledger, owner, isTokenOwner, view);
      var j :| 0 <= j < |rows| && rows[j] == view;
      i := |m.data| + j;
    }
  }

  lemma DataHosted(rs: Runners, answers: seq<Answer>, i: nat)
    requires Sent(answers) && i < |TakeAnswers(Empty, rs, answers).data|
    ensures TakeAnswers(Empty, rs, answers).data[i].source.Hosted?
  {
    var id := TakeAnswers(Empty, rs, answers).data[i].id;
    ListShows(rs, answers, id);
    ShownCredible(None, rs, answers, id);
  }
}
