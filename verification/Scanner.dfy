/** The scan loop over the journal, the queue and the process's memory. */
module Scanner {
  import opened Emission
  import opened EmissionRuns
  import opened Options

  class Scanner {
    var rows: seq<Row>
    var seen: set<Seen>
    var queued: set<Item>

    constructor ()
      ensures Contents() == Journal([], {}, {})
    {
      rows, seen, queued := [], {}, {};
    }

    function Contents(): Journal
      reads this
    {
      Journal(rows, seen, queued)
    }

    method JournalCandidate(row: Row)
      modifies this
      ensures Contents() == Note(old(Contents()), row)
    {
      var key := Seen(row.day, row.ticker, row.verdict);
      if key in seen {
        return;
      }
      seen := seen + {key};
      rows := rows + [row];
    }

    method CountEmitted(w: Span) returns (n: nat)
      ensures n == Count(rows, w)
    {
      n := 0;
      for i := 0 to |rows|
        invariant n == Count(rows[..i], w)
      {
        assert rows[..i + 1][..i] == rows[..i];
        if rows[i].verdict.status == Emitted && Within(w, rows[i]) {
          n := n + 1;
        }
      }
      assert rows[..|rows|] == rows;
    }

    /** Emit the ranked survivors in turn, counting only what is emitted. A transaction that
        rolls back takes its row and its message with it and ends the scan; the memory of it
        stays. */
    method EmissionLoop(g: Config, r: Reading, day: int, ts: seq<Turn>) returns (emitted: nat, whole: bool)
      modifies this
      ensures var s := Scan(g, r, day, old(Contents()), ts);
        Contents() == s.journal && emitted == |s.emitted| && whole == s.rolled.None?
    {
      hide Disposition;
      emitted, whole := 0, true;
      ghost var start := Contents();
      for i := 0 to |ts|
        invariant whole
        invariant var s := Scan(g, r, day, start, ts[..i]);
          Contents() == s.journal && emitted == |s.emitted| && s.rolled.None?
      {
        assert ts[..i + 1][..i] == ts[..i];
        var c := ts[i].c;
        var v := Disposition(g, c, emitted, r.today + emitted, r.hour + emitted, r.open, None, false);
        if v == EMIT && IsDown(c) && g.precheck {
          v := Disposition(g, c, emitted, r.today + emitted, r.hour + emitted, r.open, c.etb, r.early);
        }
        if v == EMIT && ts[i].rolls {
          seen := seen + {Seen(day, c.ticker, EMIT)};
          whole := false;
          RolledStays(g, r, day, start, ts, i + 1);
          return;
        }
        if v == EMIT {
          queued := queued + {Item(c.ticker, day)};
          JournalCandidate(Row(day, c.ticker, EMIT, ts[i].at));
          emitted := emitted + 1;
        } else {
          JournalCandidate(Row(day, c.ticker, v, ts[i].at));
        }
      }
      assert ts[..|ts|] == ts;
    }

    /** One cycle, from the daily count to the last survivor. */
    method RunCycle(g: Config, e: Cycle) returns (emitted: nat, whole: bool)
      requires WellTimed(e)
      modifies this
      ensures var s := ScanOnce(g, old(Contents()), e);
        Contents() == s.journal && emitted == |s.emitted| && whole == s.rolled.None?
    {
      emitted, whole := 0, true;
      var day := DayOf(e.now);
      if !e.ready {
        return;
      }
      var today := CountEmitted(OnDay(day));
      if today >= g.maxPerDay && !g.observeAfterCap {
        return;
      }
      var ts := TurnsOf(Contents(), e);
      var hour := CountEmitted(After(e.countedAt - HOUR));
      emitted, whole := EmissionLoop(g, Reading(today, hour, e.open, e.early), day, ts);
    }
  }

  /** Nothing follows a rolled-back emission. */
  lemma {:induction false} RolledStays(g: Config, r: Reading, day: int, j: Journal, ts: seq<Turn>, n: nat)
    requires n <= |ts| && Scan(g, r, day, j, ts[..n]).rolled.Some?
    ensures Scan(g, r, day, j, ts) == Scan(g, r, day, j, ts[..n])
    decreases |ts|
  {
    hide Decide;
    if n < |ts| {
      assert ts[..|ts| - 1][..n] == ts[..n];
      RolledStays(g, r, day, j, ts[..|ts| - 1], n);
    } else {
      assert ts[..n] == ts;
    }
  }
}
