/** The sessions and probes tables. */
module SessionTables {
  import opened Options

  datatype ProbeRow = ProbeRow(seqNo: int, rttMs: Option<real>, loss: bool, at: string)

  /** One row of the probes table; the table is kept in rowid order. */
  datatype StoredProbe = StoredProbe(sessionId: int, row: ProbeRow)

  function RowsOf(probes: seq<StoredProbe>, id: int): seq<ProbeRow> {
    if probes == [] then []
    else
      var last := probes[|probes| - 1];
      RowsOf(probes[..|probes| - 1], id) + if last.sessionId == id then [last.row] else []
  }

  function Tagged(id: int, rows: seq<ProbeRow>): seq<StoredProbe> {
    seq(|rows|, i requires 0 <= i < |rows| => StoredProbe(id, rows[i]))
  }

  /** ON DELETE CASCADE. */
  function Without(probes: seq<StoredProbe>, id: int): seq<StoredProbe> {
    if probes == [] then []
    else
      var last := probes[|probes| - 1];
      Without(probes[..|probes| - 1], id) + if last.sessionId == id then [] else [last]
  }

  function LossRows(rows: seq<ProbeRow>): nat {
    if rows == [] then 0 else LossRows(rows[..|rows| - 1]) + if rows[|rows| - 1].loss then 1 else 0
  }

  lemma {:induction false} RowsOfAppend(probes: seq<StoredProbe>, more: seq<StoredProbe>, id: int)
    ensures RowsOf(probes + more, id) == RowsOf(probes, id) + RowsOf(more, id)
  {
    if more == [] {
      assert probes + more == probes;
    } else {
      assert (probes + more)[..|probes + more| - 1] == probes + more[..|more| - 1];
      RowsOfAppend(probes, more[..|more| - 1], id);
    }
  }

  lemma {:induction false} RowsOfTagged(rows: seq<ProbeRow>, owner: int, id: int)
    ensures RowsOf(Tagged(owner, rows), id) == if owner == id then rows else []
  {
    if rows != [] {
      var init := rows[..|rows| - 1];
      RowsOfTagged(init, owner, id);
      assert Tagged(owner, rows)[..|rows| - 1] == Tagged(owner, init);
      assert rows == init + [rows[|rows| - 1]];
    }
  }

  /** A committed batch extends its own session's rows and nobody else's. */
  lemma BatchStaysInItsSession(probes: seq<StoredProbe>, owner: int, rows: seq<ProbeRow>, id: int)
    ensures RowsOf(probes + Tagged(owner, rows), id) ==
            RowsOf(probes, id) + if owner == id then rows else []
  {
    RowsOfAppend(probes, Tagged(owner, rows), id);
    RowsOfTagged(rows, owner, id);
  }

  lemma {:induction false} CascadeTouchesOneSession(probes: seq<StoredProbe>, owner: int, id: int)
    ensures RowsOf(Without(probes, owner), id) == if owner == id then [] else RowsOf(probes, id)
  {
    if probes != [] {
      var init, last := probes[..|probes| - 1], probes[|probes| - 1];
      CascadeTouchesOneSession(init, owner, id);
      RowsOfAppend(Without(init, owner), if last.sessionId == owner then [] else [last], id);
      assert RowsOf([last], id) == RowsOf([], id) + if last.sessionId == id then [last.row] else [];
    }
  }

  // ---- ORDER BY seq ----

  ghost predicate SeqAscending(rows: seq<ProbeRow>) {
    forall i, j :: 0 <= i < j < |rows| ==> rows[i].seqNo < rows[j].seqNo
  }

  /** What "ORDER BY seq" may return: the same rows, in an order that never descends. */
  ghost predicate IsOrderBySeq(result: seq<ProbeRow>, rows: seq<ProbeRow>) {
    && multiset(result) == multiset(rows)
    && forall i, j :: 0 <= i < j < |result| ==> result[i].seqNo <= result[j].seqNo
  }

  lemma SameLength(a: seq<ProbeRow>, b: seq<ProbeRow>)
    requires multiset(a) == multiset(b)
    ensures |a| == |b|
  {
    assert |a| == |multiset(a)| == |multiset(b)| == |b|;
  }

  lemma SameLast(result: seq<ProbeRow>, rows: seq<ProbeRow>)
    requires SeqAscending(rows) && IsOrderBySeq(result, rows) && rows != []
    ensures |result| == |rows| && result[|rows| - 1] == rows[|rows| - 1]
  {
    SameLength(result, rows);
    var n := |rows| - 1;
    var a, b := result[n], rows[n];
    assert a in multiset(result) && b in multiset(rows);
    assert a in rows && b in result;
    var i :| 0 <= i < |rows| && rows[i] == a;
    var j :| 0 <= j < |result| && result[j] == b;
    assert a.seqNo >= b.seqNo;
  }

  lemma DropSameLast(result: seq<ProbeRow>, rows: seq<ProbeRow>)
    requires multiset(result) == multiset(rows)
    requires |result| == |rows| > 0 && result[|rows| - 1] == rows[|rows| - 1]
    ensures multiset(result[..|rows| - 1]) == multiset(rows[..|rows| - 1])
  {
    var n := |rows| - 1;
    assert result == result[..n] + [rows[n]] && rows == rows[..n] + [rows[n]];
    assert multiset(result) == multiset(result[..n]) + multiset{rows[n]};
    assert multiset(rows) == multiset(rows[..n]) + multiset{rows[n]};
    assert multiset(result[..n]) == multiset(result) - multiset{rows[n]};
    assert multiset(rows[..n]) == multiset(rows) - multiset{rows[n]};
  }

  /** Distinct ascending numbers leave the query no freedom: rows come back as they were inserted. */
  lemma {:induction false} OrderBySeqIsInsertionOrder(result: seq<ProbeRow>, rows: seq<ProbeRow>)
    requires SeqAscending(rows) && IsOrderBySeq(result, rows)
    ensures result == rows
  {
    SameLength(result, rows);
    if rows != [] {
      var n := |rows| - 1;
      SameLast(result, rows);
      DropSameLast(result, rows);
      OrderBySeqIsInsertionOrder(result[..n], rows[..n]);
      assert result == result[..n] + [result[n]] && rows == rows[..n] + [rows[n]];
    }
  }

  // ---- The database object ----

  datatype Outcome = Done | Failed

  lemma HasMember(s: set<int>)
    requires s != {}
    ensures exists k: int :: k in s
  {
    assert (forall k: int :: k !in s) ==> s == {};
  }

  datatype SessionSummary = SessionSummary(
    id: int, endedAt: Option<string>, probeCount: nat, lossCount: nat, lossPercent: real)

  predicate NewestFirst(listing: seq<SessionSummary>) {
    forall i, j :: 0 <= i < j < |listing| ==> listing[i].id > listing[j].id
  }

  function Ids(listing: seq<SessionSummary>): set<int> {
    if listing == [] then {} else Ids(listing[..|listing| - 1]) + {listing[|listing| - 1].id}
  }

  /** The listing so far, with the ids still to come. */
  ghost predicate ListsDownTo(listing: seq<SessionSummary>, rest: set<int>, ids: set<int>) {
    && NewestFirst(listing) && Ids(listing) + rest == ids
    && (listing != [] ==> forall k :: k in rest ==> k < listing[|listing| - 1].id)
  }

  lemma NothingListed(ids: set<int>)
    ensures ListsDownTo([], ids, ids)
  {
  }

  lemma ListOneMore(listing: seq<SessionSummary>, line: SessionSummary, rest: set<int>, ids: set<int>)
    requires ListsDownTo(listing, rest, ids) && line.id in rest && forall k :: k in rest ==> k <= line.id
    ensures ListsDownTo(listing + [line], rest - {line.id}, ids)
  {
    assert (listing + [line])[..|listing|] == listing;
  }

  lemma AllListed(listing: seq<SessionSummary>, ids: set<int>)
    requires ListsDownTo(listing, {}, ids)
    ensures NewestFirst(listing) && Ids(listing) == ids
  {
  }

  method Largest(s: set<int>) returns (id: int)
    requires s != {}
    ensures id in s && forall k :: k in s ==> k <= id
  {
    HasMember(s);
    id :| id in s;
    var rest := s - {id};
    while rest != {}
      invariant rest <= s && id in s
      invariant forall k :: k in s && k !in rest ==> k <= id
      decreases rest
    {
      HasMember(rest);
      var k: int :| k in rest;
      if k > id {
        id := k;
      }
      rest := rest - {k};
    }
  }

  class Database {
    /** ended_at by session id; None until the session is finished. */
    var sessions: map<int, Option<string>>
    var probes: seq<StoredProbe>

    constructor ()
      ensures sessions == map[] && probes == []
    {
      sessions, probes := map[], [];
    }

    /** A fresh row gets one more than the largest id present, so the id of a deleted newest row returns. */
    method CreateSession() returns (id: int)
      modifies this
      ensures id !in old(sessions) && id >= 1
      ensures forall k :: k in old(sessions) ==> k < id
      ensures id > 1 ==> id - 1 in old(sessions)
      ensures sessions == old(sessions)[id := None] && probes == old(probes)
    {
      var rest: set<int> := sessions.Keys;
      id := 1;
      while rest != {}
        invariant sessions == old(sessions) && probes == old(probes)
        invariant rest <= sessions.Keys && id >= 1
        invariant forall k :: k in sessions && k !in rest ==> k < id
        invariant id > 1 ==> id - 1 in sessions
        decreases rest
      {
        HasMember(rest);
        var k: int :| k in rest;
        if k >= id {
          id := k + 1;
        }
        rest := rest - {k};
      }
      sessions := sessions[id := None];
    }

    /** One transaction: every row, or, if an insert or the commit fails, none. */
    method InsertProbesBatch(id: int, rows: seq<ProbeRow>, failAt: Option<nat>) returns (r: Outcome)
      modifies `probes
      ensures r == (if (rows != [] && id !in sessions) || (failAt.Some? && failAt.value <= |rows|) then Failed else Done)
      ensures probes == if r == Done then old(probes) + Tagged(id, rows) else old(probes)
    {
      var tx := probes;
      for i := 0 to |rows|
        invariant tx == probes + Tagged(id, rows[..i])
        invariant i > 0 ==> id in sessions
        invariant failAt.Some? ==> failAt.value >= i
      {
        if failAt == Some(i) || id !in sessions {
          return Failed;
        }
        tx := tx + [StoredProbe(id, rows[i])];
        assert Tagged(id, rows[..i + 1]) == Tagged(id, rows[..i]) + [StoredProbe(id, rows[i])];
      }
      if failAt == Some(|rows|) {
        return Failed;
      }
      assert rows[..|rows|] == rows;
      probes := tx;
      return Done;
    }

    /** An UPDATE of a missing row changes nothing and succeeds. */
    method FinishSession(id: int, endedAt: string)
      modifies `sessions
      ensures sessions == if id in old(sessions) then old(sessions)[id := Some(endedAt)] else old(sessions)
    {
      if id in sessions {
        sessions := sessions[id := Some(endedAt)];
      }
    }

    method DeleteSession(id: int)
      modifies this
      ensures sessions == old(sessions) - {id}
      ensures probes == if id in old(sessions) then Without(old(probes), id) else old(probes)
    {
      if id in sessions {
        var kept := [];
        for i := 0 to |probes|
          invariant kept == Without(probes[..i], id)
        {
          assert probes[..i + 1][..i] == probes[..i];
          if probes[i].sessionId != id {
            kept := kept + [probes[i]];
          }
        }
        assert probes[..|probes|] == probes;
        probes := kept;
      }
      sessions := sessions - {id};
    }

    /** One line of the listing, as the aggregates of the session's own rows. */
    ghost predicate Summarizes(line: SessionSummary)
      reads this
    {
      var rows := RowsOf(probes, line.id);
      && line.id in sessions && line.endedAt == sessions[line.id]
      && line.probeCount == |rows| && line.lossCount == LossRows(rows)
      && line.lossPercent == if rows == [] then 0.0 else 100.0 * LossRows(rows) as real / |rows| as real
    }

    method SummaryOf(id: int) returns (line: SessionSummary)
      requires id in sessions
      ensures Summarizes(line) && line.id == id
    {
      var probeCount, lossCount := Aggregates(id);
      var lossPercent := if probeCount == 0 then 0.0 else 100.0 * lossCount as real / probeCount as real;
      line := SessionSummary(id, sessions[id], probeCount, lossCount, lossPercent);
    }

    /** All sessions, newest first, each with its counts and loss percentage. */
    method ListSessions() returns (listing: seq<SessionSummary>)
      ensures forall i :: 0 <= i < |listing| ==> Summarizes(listing[i])
      ensures NewestFirst(listing) && Ids(listing) == sessions.Keys
    {
      hide Summarizes, ListsDownTo;
      listing := [];
      var rest: set<int> := sessions.Keys;
      NothingListed(sessions.Keys);
      while rest != {}
        invariant forall i :: 0 <= i < |listing| ==> Summarizes(listing[i])
        invariant rest <= sessions.Keys && ListsDownTo(listing, rest, sessions.Keys)
        decreases rest
      {
        var id := Largest(rest);
        var line := SummaryOf(id);
        ListOneMore(listing, line, rest, sessions.Keys);
        listing := listing + [line];
        rest := rest - {id};
      }
      AllListed(listing, sessions.Keys);
    }

    /** COUNT and SUM(loss) of one session in the listing. */
    method Aggregates(id: int) returns (probeCount: nat, lossCount: nat)
      ensures probeCount == |RowsOf(probes, id)|
      ensures lossCount == LossRows(RowsOf(probes, id))
    {
      probeCount, lossCount := 0, 0;
      for i := 0 to |probes|
        invariant probeCount == |RowsOf(probes[..i], id)|
        invariant lossCount == LossRows(RowsOf(probes[..i], id))
      {
        var p := probes[i];
        assert probes[..i + 1][..i] == probes[..i];
        ghost var rows := RowsOf(probes[..i], id);
        assert RowsOf(probes[..i + 1], id) == if p.sessionId == id then rows + [p.row] else rows;
        if p.sessionId == id {
          assert (rows + [p.row])[..|rows|] == rows;
          probeCount := probeCount + 1;
          lossCount := lossCount + if p.row.loss then 1 else 0;
        }
      }
      assert probes[..|probes|] == probes;
    }
  }
}
