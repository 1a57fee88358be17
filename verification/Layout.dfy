/** The pagination engine behind the resume export
    (frontend/src/ResumeBuilder.jsx, `exportToPDF`), with the component's
    mutable `yPos`/`addPage` pair turned into an explicit cursor threaded
    through a fold.

    A layout is a program of steps. A `Row` draws one or more cells side by
    side at the cursor's height and then moves the cursor down; before it
    draws, an optional near-bottom limit is checked, and when the cursor is
    below the limit a new page is started and the cursor returns to the top
    margin (`if (yPos > limit) { doc.addPage(); yPos = 20; }`). A `Gap` only
    moves the cursor down (`yPos += 3`, `yPos += 5`). Running a program
    yields the drawn text runs, each stamped with its page, height and
    column. */
module Layout {
  import opened Outcomes

  /** The top margin: where the first page starts and where every new page
      puts the cursor back. */
  const Top := 20

  /** jsPDF's font state at the time of a `doc.text` call. */
  datatype Style = Style(bold: bool, size: nat)

  /** One `doc.text(text, x, y)` call; `text` is the list of lines handed to
      jsPDF (a single line for a string argument). */
  datatype Cell = Cell(x: int, text: seq<string>, style: Style)

  datatype Step =
    | Row(limit: Option<int>, cells: seq<Cell>, advance: nat)
    | Gap(dy: nat)

  datatype Cursor = Cursor(page: nat, y: int)

  /** A drawn text run with its position, and the limit it was checked
      against, if any. */
  datatype Emission = Emission(page: nat, y: int, x: int, text: seq<string>, style: Style, limit: Option<int>)

  datatype Trace = Trace(emissions: seq<Emission>, cursor: Cursor)

  /** The page-break check in front of a row. */
  function Place(cur: Cursor, limit: Option<int>): (c: Cursor)
    ensures c.page == cur.page + 1 <==> limit.Some? && cur.y > limit.value
    ensures c.page == cur.page || (c.page == cur.page + 1 && c.y == Top)
    ensures c.page == cur.page ==> c.y == cur.y
    ensures limit.Some? && Top <= limit.value ==> c.y <= limit.value
  {
    if limit.Some? && cur.y > limit.value then Cursor(cur.page + 1, Top) else cur
  }

  function Stamp(cells: seq<Cell>, at: Cursor, limit: Option<int>): seq<Emission>
  {
    seq(|cells|, k requires 0 <= k < |cells| =>
      Emission(at.page, at.y, cells[k].x, cells[k].text, cells[k].style, limit))
  }

  function Exec(step: Step, cur: Cursor): Trace {
    match step
    case Gap(dy) => Trace([], Cursor(cur.page, cur.y + dy))
    case Row(limit, cells, advance) =>
      var at := Place(cur, limit);
      Trace(Stamp(cells, at, limit), Cursor(at.page, at.y + advance))
  }

  /** Run a program from a cursor. */
  function Run(steps: seq<Step>, cur: Cursor): Trace
    decreases |steps|
  {
    if steps == [] then Trace([], cur)
    else
      var first := Exec(steps[0], cur);
      var rest := Run(steps[1..], first.cursor);
      Trace(first.emissions + rest.emissions, rest.cursor)
  }

  /** Running two programs one after the other is running their
      concatenation. */
  lemma {:induction false} RunAppend(a: seq<Step>, b: seq<Step>, cur: Cursor)
    ensures Run(a + b, cur).emissions == Run(a, cur).emissions + Run(b, Run(a, cur).cursor).emissions
    ensures Run(a + b, cur).cursor == Run(b, Run(a, cur).cursor).cursor
    decreases |a|
  {
    if a == [] {
      assert a + b == b;
    } else {
      assert (a + b)[0] == a[0];
      assert (a + b)[1..] == a[1..] + b;
      RunAppend(a[1..], b, Exec(a[0], cur).cursor);
    }
  }

  lemma RunOne(s: Step, cur: Cursor)
    ensures Run([s], cur) == Exec(s, cur)
  {
    assert [s][1..] == [];
  }

  /** What a program draws is drawn first by any program that extends it. */
  lemma RunPrefix(a: seq<Step>, b: seq<Step>, cur: Cursor)
    ensures Run(a, cur).emissions <= Run(a + b, cur).emissions
  {
    RunAppend(a, b, cur);
  }

  /** The text runs a program asks for, in program order, ignoring where
      they land. */
  function CellsOf(steps: seq<Step>): seq<Cell>
    decreases |steps|
  {
    if steps == [] then []
    else (if steps[0].Row? then steps[0].cells else []) + CellsOf(steps[1..])
  }

  lemma {:induction false} CellsOfAppend(a: seq<Step>, b: seq<Step>)
    ensures CellsOf(a + b) == CellsOf(a) + CellsOf(b)
    decreases |a|
  {
    if a == [] {
      assert a + b == b;
    } else {
      assert (a + b)[0] == a[0];
      assert (a + b)[1..] == a[1..] + b;
      CellsOfAppend(a[1..], b);
    }
  }

  lemma CellsOfOne(s: Step)
    ensures CellsOf([s]) == if s.Row? then s.cells else []
  {
    assert [s][1..] == [];
  }

  function Content(e: Emission): Cell {
    Cell(e.x, e.text, e.style)
  }

  function Contents(es: seq<Emission>): seq<Cell> {
    seq(|es|, k requires 0 <= k < |es| => Content(es[k]))
  }

  /** Pagination decides where text lands, never what is drawn: from any
      starting cursor, the drawn runs are exactly the program's cells, in
      order. */
  lemma {:induction false} RunDrawsCells(steps: seq<Step>, cur: Cursor)
    ensures Contents(Run(steps, cur).emissions) == CellsOf(steps)
    decreases |steps|
  {
    if steps != [] {
      var first := Exec(steps[0], cur);
      RunDrawsCells(steps[1..], first.cursor);
      var es := Run(steps, cur).emissions;
      var rest := Run(steps[1..], first.cursor).emissions;
      assert es == first.emissions + rest;
      assert Contents(first.emissions) == (if steps[0].Row? then steps[0].cells else []);
      assert Contents(es) == Contents(first.emissions) + Contents(rest);
    }
  }

  /** A row's cells are drawn left to right. */
  predicate IncreasingX(cells: seq<Cell>) {
    forall j, k :: 0 <= j < k < |cells| ==> cells[j].x < cells[k].x
  }

  /** Every row draws something, moves the cursor down, and has a limit no
      higher than the top margin. */
  predicate WellFormedStep(s: Step) {
    s.Row? ==> s.advance > 0 && |s.cells| > 0 && IncreasingX(s.cells)
               && (s.limit.Some? ==> Top <= s.limit.value)
  }

  predicate WellFormed(steps: seq<Step>) {
    forall i :: 0 <= i < |steps| ==> WellFormedStep(steps[i])
  }

  lemma WellFormedAppend(a: seq<Step>, b: seq<Step>)
    ensures WellFormed(a + b) <==> WellFormed(a) && WellFormed(b)
  {
    if WellFormed(a) && WellFormed(b) {
      forall i | 0 <= i < |a + b| ensures WellFormedStep((a + b)[i]) {
        if i >= |a| { assert (a + b)[i] == b[i - |a|]; }
      }
    }
    if WellFormed(a + b) {
      forall i | 0 <= i < |a| ensures WellFormedStep(a[i]) {
        assert (a + b)[i] == a[i];
      }
      forall i | 0 <= i < |b| ensures WellFormedStep(b[i]) {
        assert (a + b)[i + |a|] == b[i];
      }
    }
  }

  /** `b` comes right after `a` in reading order: further down the same page,
      or further right on the same line, or at the top of the next page. */
  predicate Precedes(a: Emission, b: Emission) {
    || (b.page == a.page && (a.y < b.y || (a.y == b.y && a.x < b.x)))
    || (b.page == a.page + 1 && b.y == Top)
  }

  predicate InReadingOrder(es: seq<Emission>) {
    forall i :: 0 <= i < |es| - 1 ==> Precedes(es[i], es[i + 1])
  }

  /** No run that was checked against a limit starts below it. */
  predicate WithinLimits(es: seq<Emission>) {
    forall i :: 0 <= i < |es| && es[i].limit.Some? ==> es[i].y <= es[i].limit.value
  }

  predicate BelowTopMargin(es: seq<Emission>) {
    forall i :: 0 <= i < |es| ==> es[i].y >= Top
  }

  /** Where the first run after cursor `cur` can land. */
  predicate StartsFrom(cur: Cursor, e: Emission) {
    (e.page == cur.page && e.y >= cur.y) || (e.page == cur.page + 1 && e.y == Top)
  }

  lemma ConcatInReadingOrder(a: seq<Emission>, b: seq<Emission>)
    requires InReadingOrder(a) && InReadingOrder(b)
    requires a != [] && b != [] ==> Precedes(a[|a| - 1], b[0])
    ensures InReadingOrder(a + b)
  {
    var ab := a + b;
    forall i | 0 <= i < |ab| - 1 ensures Precedes(ab[i], ab[i + 1]) {
      if i < |a| - 1 {
        assert ab[i] == a[i] && ab[i + 1] == a[i + 1];
      } else if i == |a| - 1 {
        assert ab[i] == a[|a| - 1] && ab[i + 1] == b[0];
      } else {
        assert ab[i] == b[i - |a|] && ab[i + 1] == b[i - |a| + 1];
      }
    }
  }

  /** The facts the pagination theorem keeps: trace `t`, produced from cursor
      `cur`, is in reading order, respects its limits, stays below the top
      margin, starts after `cur` and ends above its own cursor, and touches
      only pages from `cur`'s to its final cursor's. */
  predicate Orderly(cur: Cursor, t: Trace) {
    var es := t.emissions;
    && InReadingOrder(es) && WithinLimits(es) && BelowTopMargin(es)
    && t.cursor.y >= Top
    && t.cursor.page >= cur.page
    && (es == [] ==> t.cursor.page == cur.page && t.cursor.y >= cur.y)
    && (es != [] ==> StartsFrom(cur, es[0]))
    && (es != [] ==> es[|es| - 1].page == t.cursor.page && es[|es| - 1].y < t.cursor.y)
    && (forall i :: 0 <= i < |es| ==> cur.page <= es[i].page <= t.cursor.page)
  }

  /** One well-formed step, from a cursor at or below the top margin. */
  lemma ExecOrderly(s: Step, cur: Cursor)
    requires WellFormedStep(s) && cur.y >= Top
    ensures Orderly(cur, Exec(s, cur))
    ensures Exec(s, cur).cursor.page <= cur.page + 1
  {
  }

  /** Two orderly traces, the second started where the first ended, make an
      orderly trace. */
  lemma OrderlyConcat(cur: Cursor, t1: Trace, t2: Trace)
    requires cur.y >= Top
    requires Orderly(cur, t1) && Orderly(t1.cursor, t2)
    ensures Orderly(cur, Trace(t1.emissions + t2.emissions, t2.cursor))
  {
    var a, b := t1.emissions, t2.emissions;
    var es := a + b;
    ConcatInReadingOrder(a, b);
    assert WithinLimits(es) by {
      forall i | 0 <= i < |es| && es[i].limit.Some? ensures es[i].y <= es[i].limit.value {
        if i >= |a| { assert es[i] == b[i - |a|]; }
      }
    }
    assert BelowTopMargin(es) by {
      forall i | 0 <= i < |es| ensures es[i].y >= Top {
        if i >= |a| { assert es[i] == b[i - |a|]; }
      }
    }
    forall i | 0 <= i < |es| ensures cur.page <= es[i].page <= t2.cursor.page {
      if i >= |a| { assert es[i] == b[i - |a|]; }
    }
    if b != [] {
      assert es[|es| - 1] == b[|b| - 1];
    } else if a != [] {
      assert es[|es| - 1] == a[|a| - 1];
    }
    if a != [] {
      assert es[0] == a[0];
    } else if b != [] {
      assert es[0] == b[0];
    }
  }

  /** The pagination theorem: running a well-formed program from a cursor at
      or below the top margin draws every run in reading order, never starts
      a checked run below its limit and never draws above the top margin. */
  lemma {:induction false} RunOrdered(steps: seq<Step>, cur: Cursor)
    requires WellFormed(steps) && cur.y >= Top
    ensures Orderly(cur, Run(steps, cur))
    decreases |steps|
  {
    if steps != [] {
      var first := Exec(steps[0], cur);
      assert WellFormed(steps[1..]) by {
        forall i | 0 <= i < |steps[1..]| ensures WellFormedStep(steps[1..][i]) {
          assert steps[1..][i] == steps[i + 1];
        }
      }
      ExecOrderly(steps[0], cur);
      RunOrdered(steps[1..], first.cursor);
      OrderlyConcat(cur, first, Run(steps[1..], first.cursor));
    }
  }

  /** Rows without a limit never start a new page: a run of single-cell,
      unchecked rows of equal advance `d` draws its k-th cell `k * d` below
      the starting cursor on the starting page, however far down that is. */
  lemma {:induction false} RunUnguardedLines(steps: seq<Step>, cur: Cursor, d: nat)
    requires forall i :: 0 <= i < |steps| ==>
      steps[i].Row? && steps[i].limit.None? && |steps[i].cells| == 1 && steps[i].advance == d
    ensures |Run(steps, cur).emissions| == |steps|
    ensures forall k :: 0 <= k < |steps| ==>
      Run(steps, cur).emissions[k]
        == Emission(cur.page, cur.y + k * d, steps[k].cells[0].x, steps[k].cells[0].text, steps[k].cells[0].style, None)
    ensures Run(steps, cur).cursor == Cursor(cur.page, cur.y + |steps| * d)
    decreases |steps|
  {
    if steps != [] {
      var next := Cursor(cur.page, cur.y + d);
      assert Exec(steps[0], cur).cursor == next;
      RunUnguardedLines(steps[1..], next, d);
      var a := Exec(steps[0], cur).emissions;
      var b := Run(steps[1..], next).emissions;
      assert Run(steps, cur).emissions == a + b;
      forall k | 0 <= k < |steps|
        ensures (a + b)[k]
          == Emission(cur.page, cur.y + k * d, steps[k].cells[0].x, steps[k].cells[0].text, steps[k].cells[0].style, None)
      {
        if k > 0 {
          assert (a + b)[k] == b[k - 1];
          assert steps[1..][k - 1] == steps[k];
          assert cur.y + d + (k - 1) * d == cur.y + k * d;
        }
      }
      assert cur.y + d + (|steps| - 1) * d == cur.y + |steps| * d;
    }
  }

  /** Consecutive runs are at most one page apart. */
  lemma PagesAdvanceByOne(es: seq<Emission>, i: nat)
    requires InReadingOrder(es) && i + 1 < |es|
    ensures es[i].page <= es[i + 1].page <= es[i].page + 1
    ensures es[i + 1].page == es[i].page + 1 ==> es[i + 1].y == Top
  {
    assert Precedes(es[i], es[i + 1]);
  }
}
