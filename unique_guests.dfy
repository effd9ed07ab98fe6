/** The unique-guests report: `allGuests.reduce(...)` keeping a row only when
    no row kept so far has the same `email` (strict equality, so two rows
    without an email column count as equal). */
module UniqueGuests {
  import opened Records

  function EmailOf(r: Record): Value
  {
    Prop(r, "email")
  }

  /** `acc.find((item) => item.email === email)`. */
  function FindByEmail(acc: seq<Record>, email: Value): (r: Option<Record>)
    ensures r.None? <==> forall i :: 0 <= i < |acc| ==> EmailOf(acc[i]) != email
    ensures r.Some? ==> r.value in acc && EmailOf(r.value) == email
  {
    if acc == [] then None
    else if EmailOf(acc[0]) == email then Some(acc[0])
    else FindByEmail(acc[1..], email)
  }

  /** The left fold over the rows, starting from `[]`: the reducer appends
      `current` unless a kept row already has its email. */
  function Dedupe(rows: seq<Record>): (r: seq<Record>)
    ensures |r| <= |rows|
  {
    if rows == [] then []
    else
      var acc, current := Dedupe(rows[..|rows| - 1]), rows[|rows| - 1];
      if FindByEmail(acc, EmailOf(current)).None? then acc + [current] else acc
  }

  /** The email values occurring in a list of rows. */
  function Emails(rows: seq<Record>): set<Value>
  {
    set i | 0 <= i < |rows| :: EmailOf(rows[i])
  }

  ghost predicate DistinctEmails(rows: seq<Record>)
  {
    forall i, j :: 0 <= i < j < |rows| ==> EmailOf(rows[i]) != EmailOf(rows[j])
  }

  /** Row `i` is the first row of the list with its email. */
  predicate IsFirstOccurrence(rows: seq<Record>, i: int)
    requires 0 <= i < |rows|
  {
    forall j :: 0 <= j < i ==> EmailOf(rows[j]) != EmailOf(rows[i])
  }

  lemma EmailsSnoc(rows: seq<Record>, x: Record)
    ensures Emails(rows + [x]) == Emails(rows) + {EmailOf(x)}
  {
    var s := rows + [x];
    assert forall i :: 0 <= i < |rows| ==> s[i] == rows[i];
    assert s[|rows|] == x;
  }

  /** The search misses exactly when the email is not among the rows'. */
  lemma FindByEmailMisses(acc: seq<Record>, email: Value)
    ensures FindByEmail(acc, email).None? <==> email !in Emails(acc)
  {
    if email in Emails(acc) {
      var i :| 0 <= i < |acc| && EmailOf(acc[i]) == email;
    }
  }

  /** No two kept rows share an email. */
  lemma {:induction false} DedupeDistinct(rows: seq<Record>)
    ensures DistinctEmails(Dedupe(rows))
  {
    if rows != [] {
      DedupeDistinct(rows[..|rows| - 1]);
    }
  }

  /** Every email of the input is the email of some kept row, and kept rows
      carry no other emails. */
  lemma {:induction false} DedupeEmails(rows: seq<Record>)
    ensures Emails(Dedupe(rows)) == Emails(rows)
  {
    if rows != [] {
      var p, x := rows[..|rows| - 1], rows[|rows| - 1];
      assert rows == p + [x];
      DedupeEmails(p);
      EmailsSnoc(p, x);
      var acc := Dedupe(p);
      if FindByEmail(acc, EmailOf(x)).None? {
        EmailsSnoc(acc, x);
      } else {
        var y := FindByEmail(acc, EmailOf(x)).value;
        var k :| 0 <= k < |acc| && acc[k] == y;
        assert EmailOf(x) in Emails(acc);
      }
    }
  }

  /** The positions of the input that the fold keeps: strictly increasing,
      and the kept rows are the input rows at those positions, so the
      result is a subsequence of the input. */
  ghost function KeptPositions(rows: seq<Record>): (idx: seq<nat>)
    ensures |idx| == |Dedupe(rows)|
    ensures forall k :: 0 <= k < |idx| ==> idx[k] < |rows| && Dedupe(rows)[k] == rows[idx[k]]
    ensures forall k, l :: 0 <= k < l < |idx| ==> idx[k] < idx[l]
  {
    if rows == [] then []
    else
      var p, x := rows[..|rows| - 1], rows[|rows| - 1];
      var prev := KeptPositions(p);
      if FindByEmail(Dedupe(p), EmailOf(x)).None? then prev + [|p|] else prev
  }

  /** Row `i` is kept exactly when no earlier row has its email: each kept
      row is the first occurrence of its email. */
  lemma {:induction false} KeptExactlyFirst(rows: seq<Record>, i: nat)
    requires i < |rows|
    ensures i in KeptPositions(rows) <==> IsFirstOccurrence(rows, i)
  {
    var p := rows[..|rows| - 1];
    if i == |p| {
      LastKeptExactlyFirst(rows);
    } else {
      KeptExactlyFirst(p, i);
      EarlierKept(rows, i);
      FirstOccurrenceInPrefix(rows, i);
    }
  }

  /** Whether an earlier row is a first occurrence does not depend on the last row. */
  lemma FirstOccurrenceInPrefix(rows: seq<Record>, i: nat)
    requires i < |rows| - 1
    ensures IsFirstOccurrence(rows, i) <==> IsFirstOccurrence(rows[..|rows| - 1], i)
  {
    var p := rows[..|rows| - 1];
    assert forall j :: 0 <= j <= i ==> rows[j] == p[j];
  }

  /** Whether the last row is kept depends only on the earlier rows' emails. */
  lemma LastKeptExactlyFirst(rows: seq<Record>)
    requires rows != []
    ensures |rows| - 1 in KeptPositions(rows) <==> IsFirstOccurrence(rows, |rows| - 1)
  {
    var p, x := rows[..|rows| - 1], rows[|rows| - 1];
    assert rows == p + [x];
    var prev := KeptPositions(p);
    var kept := FindByEmail(Dedupe(p), EmailOf(x)).None?;
    assert KeptPositions(rows) == if kept then prev + [|p|] else prev;
    assert |p| !in prev by {
      assert forall k :: 0 <= k < |prev| ==> prev[k] < |p|;
    }
    assert A: |p| in KeptPositions(rows) <==> kept by {
      if kept {
        assert (prev + [|p|])[|prev|] == |p|;
      }
    }
    DedupeEmails(p);
    FindByEmailMisses(Dedupe(p), EmailOf(x));
    assert B: kept <==> EmailOf(x) !in Emails(p);
    LastIsFirstOccurrence(p, x);
    assert C: IsFirstOccurrence(rows, |p|) <==> EmailOf(x) !in Emails(p);
  }

  /** Keeping the last row does not change which earlier rows are kept. */
  lemma EarlierKept(rows: seq<Record>, i: nat)
    requires i < |rows| - 1
    ensures i in KeptPositions(rows) <==> i in KeptPositions(rows[..|rows| - 1])
  {
    var p, x := rows[..|rows| - 1], rows[|rows| - 1];
    var prev := KeptPositions(p);
    var kept := FindByEmail(Dedupe(p), EmailOf(x)).None?;
    assert KeptPositions(rows) == if kept then prev + [|p|] else prev;
  }

  lemma LastIsFirstOccurrence(p: seq<Record>, x: Record)
    ensures IsFirstOccurrence(p + [x], |p|) <==> EmailOf(x) !in Emails(p)
  {
    var rows := p + [x];
    assert forall j :: 0 <= j < |p| ==> rows[j] == p[j];
    if EmailOf(x) in Emails(p) {
      var j :| 0 <= j < |p| && EmailOf(p[j]) == EmailOf(x);
      assert EmailOf(rows[j]) == EmailOf(rows[|p|]);
    }
  }

  /** A list whose emails are already distinct passes through unchanged. */
  lemma {:induction false} DedupeOfDistinct(rows: seq<Record>)
    requires DistinctEmails(rows)
    ensures Dedupe(rows) == rows
  {
    if rows != [] {
      var p := rows[..|rows| - 1];
      DedupeOfDistinct(p);
      assert rows == p + [rows[|rows| - 1]];
    }
  }

  /** De-duplicating the unique guests again leaves them unchanged. */
  lemma DedupeIdempotent(rows: seq<Record>)
    ensures Dedupe(Dedupe(rows)) == Dedupe(rows)
  {
    DedupeDistinct(rows);
    DedupeOfDistinct(Dedupe(rows));
  }

  /** Two registrations with one address and one with another give two
      unique guests, in first-seen order. */
  lemma DedupeExample(a1: Record, a2: Record, b: Record)
    requires EmailOf(a1) == EmailOf(a2) == Str("a@x.com") && EmailOf(b) == Str("b@x.com")
    ensures Dedupe([a1, a2, b]) == [a1, b]
  {
    assert [a1, a2, b][..2] == [a1, a2];
    assert [a1, a2][..1] == [a1];
    assert [a1][..0] == [];
    assert Dedupe([a1]) == [a1];
    assert FindByEmail([a1], EmailOf(a2)).Some?;
    assert Dedupe([a1, a2]) == [a1];
    assert FindByEmail([a1], EmailOf(b)).None?;
  }

  /** Emails are compared exactly: a change of letter case is another guest. */
  lemma DedupeCaseSensitive(a: Record, b: Record)
    requires EmailOf(a) == Str("A@x.com") && EmailOf(b) == Str("a@x.com")
    ensures Dedupe([a, b]) == [a, b]
  {
    assert [a, b][..1] == [a];
    assert [a][..0] == [];
  }
}
