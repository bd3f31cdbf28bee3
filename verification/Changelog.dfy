/** The changelog of a table, from the rows of metadata recorded about it. */
module Changelog {
  import opened Wrappers

  type Json = nat

  /** How JSON texts are decoded. */
  type Loads = string -> Json

  datatype Row = Row(id: int, date: int, table: string, structure: Option<string>, hash: Option<string>)

  /** What a reader of the changelog sees of a table. */
  datatype Shown = Shown(table: Option<string>, structure: Option<Json>, hash: Option<string>)

  datatype Entry = Entry(id: int, date: int, current: Shown, previous: Shown)

  /** No structure, or an empty one, is shown as none. */
  function Decoded(structure: Option<string>, loads: Loads): Option<Json> {
    if structure.None? || structure.value == "" then None else Some(loads(structure.value))
  }

  function Show(row: Row, loads: Loads): Shown {
    Shown(Some(row.table), Decoded(row.structure, loads), row.hash)
  }

  const NOTHING := Shown(None, None, None)

  predicate Differ(row: Row, next: Row) {
    row.structure != next.structure || row.hash != next.hash || row.table != next.table
  }

  /** The entries for the rows, oldest first. */
  function Changes(rows: seq<Row>, loads: Loads): seq<Entry> {
    if rows == [] then []
    else
      var n := |rows| - 1;
      var shown := Show(rows[n], loads);
      if n == 0 then [Entry(rows[0].id, rows[0].date, shown, NOTHING)]
      else if Differ(rows[n - 1], rows[n]) then
        Changes(rows[..n], loads) + [Entry(rows[n].id, rows[n].date, shown, Show(rows[n - 1], loads))]
      else Changes(rows[..n], loads)
  }

  function Reversed<T>(s: seq<T>): (r: seq<T>)
    ensures |r| == |s| && forall i | 0 <= i < |s| :: r[i] == s[|s| - 1 - i]
  {
    if s == [] then [] else [s[|s| - 1]] + Reversed(s[..|s| - 1])
  }

  // ---------------------------------------------------------------------------------------------
  // Which entry is of which row
  // ---------------------------------------------------------------------------------------------

  /** This is what a reader should see of the table at the row. */
  predicate IsShown(shown: Shown, row: Row, loads: Loads) {
    && shown.table == Some(row.table) && shown.hash == row.hash
    && (shown.structure.Some? <==> row.structure.Some? && row.structure.value != "")
    && (shown.structure.Some? ==> shown.structure.value == loads(row.structure.value))
  }

  /** The entry is of the row at `i`. */
  predicate IsOf(entry: Entry, rows: seq<Row>, i: nat, loads: Loads) {
    && i < |rows| && entry.id == rows[i].id && entry.date == rows[i].date && IsShown(entry.current, rows[i], loads)
    && if i == 0 then entry.previous == Shown(None, None, None) else IsShown(entry.previous, rows[i - 1], loads)
  }

  /** The row is the first, or something recorded in it is new. */
  predicate IsNews(rows: seq<Row>, i: nat)
    requires i < |rows|
  {
    || i == 0 || rows[i].table != rows[i - 1].table || rows[i].structure != rows[i - 1].structure
    || rows[i].hash != rows[i - 1].hash
  }

  /** The entries are of the rows at `at`, in order, and those are all the rows with news. */
  ghost predicate Tell(entries: seq<Entry>, rows: seq<Row>, at: seq<nat>, loads: Loads) {
    && |at| == |entries|
    && (forall k | 0 <= k < |at| :: IsOf(entries[k], rows, at[k], loads))
    && (forall j, k | 0 <= j < k < |at| :: at[j] < at[k])
    && (forall i: nat | i < |rows| :: i in at <==> IsNews(rows, i))
  }

  /** One row more, with an entry of its own or without news. */
  lemma TellMore(entries: seq<Entry>, rows: seq<Row>, at: seq<nat>, loads: Loads, more: seq<Entry>)
    requires |rows| > 1 && Tell(entries, rows[..|rows| - 1], at, loads)
    requires if IsNews(rows, |rows| - 1) then |more| == 1 && IsOf(more[0], rows, |rows| - 1, loads) else more == []
    ensures Tell(entries + more, rows, if more == [] then at else at + [|rows| - 1], loads)
  {
    hide IsShown;
    var n, front := |rows| - 1, rows[..|rows| - 1];
    var at' := if more == [] then at else at + [n];
    forall k | 0 <= k < |at'| ensures IsOf((entries + more)[k], rows, at'[k], loads) {
      assert k < |at| ==> IsOf(entries[k], front, at[k], loads);
    }
    forall i: nat | i < n ensures i in at' <==> IsNews(rows, i) {
      assert IsNews(front, i) == IsNews(rows, i);
    }
    assert forall k | 0 <= k < |at| :: at[k] < n;
  }

  /** Each entry is of one row, with its id and date, what is recorded there, and what was before; and the
      rows without an entry are those that repeat the one before them. */
  lemma {:induction false} ChangesTell(rows: seq<Row>, loads: Loads) returns (at: seq<nat>)
    ensures Tell(Changes(rows, loads), rows, at, loads)
  {
    if rows == [] {
      at := [];
    } else if |rows| == 1 {
      at := [0];
    } else {
      hide Tell;
      var n := |rows| - 1;
      at := ChangesTell(rows[..n], loads);
      var entry := Entry(rows[n].id, rows[n].date, Show(rows[n], loads), Show(rows[n - 1], loads));
      var more := if IsNews(rows, n) then [entry] else [];
      assert Changes(rows, loads) == Changes(rows[..n], loads) + more;
      TellMore(Changes(rows[..n], loads), rows, at, loads, more);
      at := if more == [] then at else at + [n];
    }
  }

  lemma ChangelogTells(rows: seq<Row>, loads: Loads)
    ensures exists at :: Tell(Reversed(Reversed(Changes(rows, loads))), rows, at, loads)
  {
    var at := ChangesTell(rows, loads);
    var changes := Changes(rows, loads);
    assert Reversed(Reversed(changes)) == changes;
  }

  method GetChangelog(rows: seq<Row>, loads: Loads) returns (changelog: seq<Entry>)
    ensures changelog == Reversed(Changes(rows, loads))
    ensures exists at :: Tell(Reversed(changelog), rows, at, loads)
  {
    hide Tell;
    ChangelogTells(rows, loads);
    if |rows| == 0 {
      return [];
    }
    var entries := [Entry(rows[0].id, rows[0].date, Show(rows[0], loads), NOTHING)];
    for i := 1 to |rows|
      invariant entries == Changes(rows[..i], loads)
    {
      var row, next := rows[i - 1], rows[i];
      assert rows[..i + 1][..i] == rows[..i];
      if row.structure != next.structure || row.hash != next.hash || row.table != next.table {
        entries := entries + [Entry(next.id, next.date, Show(next, loads), Show(row, loads))];
      }
    }
    assert rows[..|rows|] == rows;
    hide Changes;
    changelog := Reversed(entries);
  }

  // ---------------------------------------------------------------------------------------------
  // Laws
  // ---------------------------------------------------------------------------------------------

  lemma {:induction false} LastShown(rows: seq<Row>, loads: Loads)
    requires rows != []
    ensures var c := Changes(rows, loads);
            c != [] && c[|c| - 1].current == Show(rows[|rows| - 1], loads)
  {
    if |rows| > 1 {
      LastShown(rows[..|rows| - 1], loads);
    }
  }

  ghost predicate Linked(entries: seq<Entry>) {
    && (entries != [] ==> entries[0].previous == NOTHING)
    && forall k | 0 < k < |entries| :: entries[k].previous == entries[k - 1].current
  }

  /** The first entry starts from nothing, and each later one from where the one before it left off. */
  lemma {:induction false} ChangesLinked(rows: seq<Row>, loads: Loads)
    ensures Linked(Changes(rows, loads))
  {
    if |rows| > 1 {
      var front := rows[..|rows| - 1];
      ChangesLinked(front, loads);
      LastShown(front, loads);
    }
  }

  /** The entries up to a row are the first entries of the changelog. */
  lemma {:induction false} ChangesPrefix(rows: seq<Row>, i: nat, loads: Loads)
    requires i <= |rows|
    ensures Changes(rows[..i], loads) <= Changes(rows, loads)
    decreases |rows|
  {
    if i == |rows| {
      assert rows[..i] == rows;
    } else {
      var front := rows[..|rows| - 1];
      assert front[..i] == rows[..i];
      ChangesPrefix(front, i, loads);
    }
  }

  /** What was known of the table at any row can be read off the changelog: it is what the last entry up
      to that row says. */
  lemma StateRebuilt(rows: seq<Row>, i: nat, loads: Loads) returns (k: nat)
    requires i < |rows|
    ensures k < |Changes(rows, loads)| && Changes(rows, loads)[..k + 1] == Changes(rows[..i + 1], loads)
    ensures Changes(rows, loads)[k].current == Show(rows[i], loads)
  {
    var upTo := Changes(rows[..i + 1], loads);
    LastShown(rows[..i + 1], loads);
    ChangesPrefix(rows, i + 1, loads);
    k := |upTo| - 1;
  }

  /** A change that cannot be seen: the recorded structures differ as texts, and neither what they decode
      to nor the table nor the hash does. */
  predicate Unseen(row: Row, next: Row, loads: Loads) {
    && row.table == next.table && row.hash == next.hash
    && row.structure != next.structure && Decoded(row.structure, loads) == Decoded(next.structure, loads)
  }

  ghost predicate HasUnseen(rows: seq<Row>, loads: Loads) {
    exists i | 0 < i < |rows| :: Unseen(rows[i - 1], rows[i], loads)
  }

  ghost predicate AllChange(entries: seq<Entry>) {
    forall k | 0 <= k < |entries| :: entries[k].current != entries[k].previous
  }

  /** Every entry shows a change, if and only if no row is followed by one that differs from it unseen. */
  lemma {:induction false} EntriesChange(rows: seq<Row>, loads: Loads)
    ensures AllChange(Reversed(Changes(rows, loads))) <==> !HasUnseen(rows, loads)
  {
    ChangesChange(rows, loads);
    var entries := Changes(rows, loads);
    var newestFirst := Reversed(entries);
    assert forall k | 0 <= k < |entries| :: entries[k] == newestFirst[|entries| - 1 - k];
  }

  lemma {:induction false} ChangesChange(rows: seq<Row>, loads: Loads)
    ensures AllChange(Changes(rows, loads)) <==> !HasUnseen(rows, loads)
  {
    hide AllChange;
    hide HasUnseen;
    if |rows| <= 1 {
      FewChange(rows, loads);
    } else {
      var n := |rows| - 1;
      var front, row, next := rows[..n], rows[n - 1], rows[n];
      ChangesChange(front, loads);
      OneMoreUnseen(rows, loads);
      if Differ(row, next) {
        AllOfBoth(Changes(front, loads), Entry(next.id, next.date, Show(next, loads), Show(row, loads)));
      }
    }
  }

  lemma FewChange(rows: seq<Row>, loads: Loads)
    requires |rows| <= 1
    ensures AllChange(Changes(rows, loads)) && !HasUnseen(rows, loads)
  {
  }

  lemma OneMoreUnseen(rows: seq<Row>, loads: Loads)
    requires |rows| > 1
    ensures var n := |rows| - 1;
            HasUnseen(rows, loads) <==> HasUnseen(rows[..n], loads) || Unseen(rows[n - 1], rows[n], loads)
  {
    hide Unseen;
    var front := rows[..|rows| - 1];
    if HasUnseen(front, loads) {
      var i :| 0 < i < |front| && Unseen(front[i - 1], front[i], loads);
      assert Unseen(rows[i - 1], rows[i], loads);
    }
    if HasUnseen(rows, loads) {
      var i :| 0 < i < |rows| && Unseen(rows[i - 1], rows[i], loads);
      assert i < |front| ==> Unseen(front[i - 1], front[i], loads);
    }
  }

  lemma AllOfBoth(entries: seq<Entry>, last: Entry)
    ensures AllChange(entries + [last]) <==> AllChange(entries) && last.current != last.previous
  {
    assert (entries + [last])[|entries|] == last;
    assert forall k | 0 <= k < |entries| :: (entries + [last])[k] == entries[k];
  }

  /** Two ways to differ unseen: an empty text after none, and two texts that decode alike, as a list
      written with and without spaces does. */
  lemma EntryWithoutChange(table: string, hash: Option<string>, a: string, b: string, loads: Loads)
    requires a != b && a != "" && b != "" && loads(a) == loads(b)
    ensures var rows := [Row(1, 1, table, None, hash), Row(2, 2, table, Some(""), hash)];
            !AllChange(Reversed(Changes(rows, loads)))
    ensures var rows := [Row(1, 1, table, Some(a), hash), Row(2, 2, table, Some(b), hash)];
            !AllChange(Reversed(Changes(rows, loads)))
  {
    var emptied := [Row(1, 1, table, None, hash), Row(2, 2, table, Some(""), hash)];
    assert Unseen(emptied[0], emptied[1], loads);
    EntriesChange(emptied, loads);
    var rewritten := [Row(1, 1, table, Some(a), hash), Row(2, 2, table, Some(b), hash)];
    assert Unseen(rewritten[0], rewritten[1], loads);
    EntriesChange(rewritten, loads);
  }
}
