/** get_summary of smart_file_organizer.py: count the moved files per
    category, in the order the categories are first met (a Counter keeps
    insertion order), and render one line per category; with nothing
    moved the text is "No files moved.". */
module Summary {
  import opened FileTree
  import opened Digits
  import opened Organizer
  import opened OrganizerProperties

  const NothingMoved: string := "No files moved."

  /** The categories of the records whose action is Moved, in record order. */
  function MovedCategories(records: seq<Record>): (cats: seq<string>)
    ensures |cats| <= |records|
    ensures forall c :: c in cats <==> exists r :: r in records && r.action == Moved && r.category == c
    decreases |records|
  {
    if records == [] then []
    else
      var last := records[|records| - 1];
      MovedCategories(records[..|records| - 1]) + (if last.action == Moved then [last.category] else [])
  }

  /** The positions of the records whose action is Moved, in increasing
      order: the records the comprehension of get_summary keeps. */
  function MovedPositions(records: seq<Record>): (ps: seq<nat>)
    ensures forall k :: 0 <= k < |ps| ==> ps[k] < |records| && records[ps[k]].action == Moved
    ensures forall k, l :: 0 <= k < l < |ps| ==> ps[k] < ps[l]
    ensures forall i :: 0 <= i < |records| && records[i].action == Moved ==> i in ps
    decreases |records|
  {
    if records == [] then []
    else
      var n := |records| - 1;
      MovedPositions(records[..n]) + (if records[n].action == Moved then [n] else [])
  }

  /** MovedCategories lists the category of each Moved record, one entry
      per record, in record order. */
  lemma {:induction false} MovedCategoriesInOrder(records: seq<Record>)
    ensures var cats, ps := MovedCategories(records), MovedPositions(records);
            |cats| == |ps| && forall k :: 0 <= k < |ps| ==> cats[k] == records[ps[k]].category
    decreases |records|
  {
    if records != [] {
      var n := |records| - 1;
      var pre := records[..n];
      MovedCategoriesInOrder(pre);
      var cats, ps := MovedCategories(records), MovedPositions(records);
      forall k | 0 <= k < |ps|
        ensures cats[k] == records[ps[k]].category
      {
        if k < |MovedPositions(pre)| {
          assert ps[k] == MovedPositions(pre)[k] && cats[k] == MovedCategories(pre)[k];
          assert records[ps[k]] == pre[ps[k]];
        }
      }
    }
  }

  /** The positions of the Moved records of category `c`. */
  ghost function MovedWith(records: seq<Record>, c: string): set<nat> {
    set i: nat | i < |records| && records[i].action == Moved && records[i].category == c
  }

  /** Each category occurs in MovedCategories once per Moved record of
      that category. */
  lemma {:induction false} MovedCount(records: seq<Record>, c: string)
    ensures Occurrences(MovedCategories(records), c) == |MovedWith(records, c)|
    decreases |records|
  {
    if records == [] {
      assert MovedWith(records, c) == {};
    } else {
      var n := |records| - 1;
      MovedCount(records[..n], c);
      MovedWithLast(records, c);
      OccurrencesLast(records, c);
    }
  }

  lemma MovedWithLast(records: seq<Record>, c: string)
    requires records != []
    ensures var n := |records| - 1;
            |MovedWith(records, c)| ==
              |MovedWith(records[..n], c)| + (if records[n].action == Moved && records[n].category == c then 1 else 0)
  {
    var n := |records| - 1;
    var pre := records[..n];
    var extra: set<nat> := if records[n].action == Moved && records[n].category == c then {n} else {};
    assert MovedWith(records, c) == MovedWith(pre, c) + extra by {
      forall i: nat | i < n
        ensures records[i] == pre[i]
      {
      }
    }
    assert n !in MovedWith(pre, c);
  }

  lemma OccurrencesLast(records: seq<Record>, c: string)
    requires records != []
    ensures var n := |records| - 1;
            Occurrences(MovedCategories(records), c) ==
              Occurrences(MovedCategories(records[..n]), c) + (if records[n].action == Moved && records[n].category == c then 1 else 0)
  {
    var n := |records| - 1;
    var tail := if records[n].action == Moved then [records[n].category] else [];
    assert MovedCategories(records) == MovedCategories(records[..n]) + tail;
    assert multiset(MovedCategories(records)) == multiset(MovedCategories(records[..n])) + multiset(tail);
  }

  /** A Counter: category and count, in insertion order. */
  type Tally = seq<(string, nat)>

  function Keys(tally: Tally): (keys: seq<string>)
    ensures |keys| == |tally| && forall i :: 0 <= i < |tally| ==> keys[i] == tally[i].0
  {
    seq(|tally|, i requires 0 <= i < |tally| => tally[i].0)
  }

  predicate DistinctKeys(tally: Tally) {
    forall i, j :: 0 <= i < j < |tally| ==> tally[i].0 != tally[j].0
  }

  /** `counter[c] += 1`: a known key is counted once more, a new one is
      appended with count 1; the other entries stay where they are. */
  function Bump(tally: Tally, c: string): (r: Tally)
    ensures DistinctKeys(tally) ==> DistinctKeys(r)
    ensures |r| == |tally| + (if c in Keys(tally) then 0 else 1)
    ensures forall i :: 0 <= i < |tally| ==>
              r[i] == (tally[i].0, if tally[i].0 == c then tally[i].1 + 1 else tally[i].1)
    ensures c !in Keys(tally) ==> r[|tally|] == (c, 1)
  {
    if c in Keys(tally) then
      seq(|tally|, i requires 0 <= i < |tally| => if tally[i].0 == c then (c, tally[i].1 + 1) else tally[i])
    else tally + [(c, 1)]
  }

  /** Counter(cats) */
  function TallyOf(cats: seq<string>): (tally: Tally)
    ensures DistinctKeys(tally)
    decreases |cats|
  {
    if cats == [] then [] else Bump(TallyOf(cats[..|cats| - 1]), cats[|cats| - 1])
  }

  /** The reference the counts are checked against: occurrences of `c`. */
  function Occurrences(cats: seq<string>, c: string): nat {
    multiset(cats)[c]
  }

  /** Where `c` first occurs in `cats`. */
  function FirstIndex(cats: seq<string>, c: string): (i: nat)
    requires c in cats
    ensures i < |cats| && cats[i] == c
    ensures forall j :: 0 <= j < i ==> cats[j] != c
  {
    if cats[0] == c then 0
    else
      assert c in cats[1..];
      FirstIndex(cats[1..], c) + 1
  }

  lemma FirstIndexPrefix(cats: seq<string>, c: string, last: string)
    requires c in cats
    ensures c in cats + [last] && FirstIndex(cats + [last], c) == FirstIndex(cats, c)
  {
    var i := FirstIndex(cats, c);
    assert (cats + [last])[i] == c;
    var k := FirstIndex(cats + [last], c);
    assert k <= i;
    assert (cats + [last])[k] == cats[k];
  }

  /** The Counter has one entry per category that occurs. */
  lemma {:induction false} TallyKeys(cats: seq<string>)
    ensures forall c :: c in Keys(TallyOf(cats)) <==> c in cats
    decreases |cats|
  {
    if cats != [] {
      var prefix, last := cats[..|cats| - 1], cats[|cats| - 1];
      assert cats == prefix + [last];
      TallyKeys(prefix);
      var before, after := TallyOf(prefix), TallyOf(cats);
      forall c | c in Keys(after)
        ensures c in cats
      {
        var i :| 0 <= i < |after| && Keys(after)[i] == c;
        if i < |before| {
          assert Keys(before)[i] == c;
        }
      }
      forall c | c in cats
        ensures c in Keys(after)
      {
        if c in Keys(before) {
          var i :| 0 <= i < |before| && Keys(before)[i] == c;
          assert Keys(after)[i] == c;
        } else {
          assert Keys(after)[|before|] == c;
        }
      }
    }
  }

  /** Each entry counts exactly the occurrences of its key. */
  lemma {:induction false} TallyCounts(cats: seq<string>)
    ensures forall i :: 0 <= i < |TallyOf(cats)| ==> TallyOf(cats)[i].1 == Occurrences(cats, TallyOf(cats)[i].0)
    decreases |cats|
  {
    if cats != [] {
      var prefix, last := cats[..|cats| - 1], cats[|cats| - 1];
      assert cats == prefix + [last];
      assert multiset(cats) == multiset(prefix) + multiset{last};
      TallyCounts(prefix);
      TallyKeys(prefix);
      var before, after := TallyOf(prefix), TallyOf(cats);
      forall i | 0 <= i < |after|
        ensures after[i].1 == Occurrences(cats, after[i].0)
      {
        if i == |before| {
          assert last !in Keys(before);
          assert last !in prefix;
        }
      }
    }
  }

  /** The Counter lists the categories in the order they are first met. */
  lemma {:induction false} TallyOrder(cats: seq<string>)
    ensures forall i :: 0 <= i < |TallyOf(cats)| ==> TallyOf(cats)[i].0 in cats
    ensures forall i, j :: 0 <= i < j < |TallyOf(cats)| ==>
              FirstIndex(cats, TallyOf(cats)[i].0) < FirstIndex(cats, TallyOf(cats)[j].0)
    decreases |cats|
  {
    TallyKeys(cats);
    forall i | 0 <= i < |TallyOf(cats)|
      ensures TallyOf(cats)[i].0 in cats
    {
      assert Keys(TallyOf(cats))[i] == TallyOf(cats)[i].0;
    }
    if cats != [] {
      var prefix, last := cats[..|cats| - 1], cats[|cats| - 1];
      assert cats == prefix + [last];
      TallyOrder(prefix);
      OrderKept(prefix, last);
    }
  }

  /** One more category keeps the order of the keys already counted, and
      a new key comes after all of them. */
  lemma OrderKept(prefix: seq<string>, last: string)
    requires forall i :: 0 <= i < |TallyOf(prefix)| ==> TallyOf(prefix)[i].0 in prefix
    requires forall i, j :: 0 <= i < j < |TallyOf(prefix)| ==>
               FirstIndex(prefix, TallyOf(prefix)[i].0) < FirstIndex(prefix, TallyOf(prefix)[j].0)
    requires forall i :: 0 <= i < |TallyOf(prefix + [last])| ==> TallyOf(prefix + [last])[i].0 in prefix + [last]
    ensures forall i, j :: 0 <= i < j < |TallyOf(prefix + [last])| ==>
              FirstIndex(prefix + [last], TallyOf(prefix + [last])[i].0) <
              FirstIndex(prefix + [last], TallyOf(prefix + [last])[j].0)
  {
    var cats := prefix + [last];
    var before, after := TallyOf(prefix), TallyOf(cats);
    assert cats[..|cats| - 1] == prefix;
    forall i, j | 0 <= i < j < |after|
      ensures FirstIndex(cats, after[i].0) < FirstIndex(cats, after[j].0)
    {
      KeyKept(prefix, last, i);
      if j < |before| {
        KeyKept(prefix, last, j);
      } else {
        NewKeyLast(prefix, last);
      }
    }
  }

  /** A key already counted keeps its entry and its first index. */
  lemma KeyKept(prefix: seq<string>, last: string, i: nat)
    requires forall k :: 0 <= k < |TallyOf(prefix)| ==> TallyOf(prefix)[k].0 in prefix
    requires i < |TallyOf(prefix)|
    ensures i < |TallyOf(prefix + [last])| && TallyOf(prefix + [last])[i].0 == TallyOf(prefix)[i].0
    ensures FirstIndex(prefix + [last], TallyOf(prefix)[i].0) == FirstIndex(prefix, TallyOf(prefix)[i].0) < |prefix|
  {
    assert (prefix + [last])[..|prefix|] == prefix;
    FirstIndexPrefix(prefix, TallyOf(prefix)[i].0, last);
  }

  /** A key added by the last category is that category, first met last. */
  lemma NewKeyLast(prefix: seq<string>, last: string)
    requires |TallyOf(prefix + [last])| > |TallyOf(prefix)|
    ensures TallyOf(prefix + [last])[|TallyOf(prefix)|].0 == last
    ensures FirstIndex(prefix + [last], last) == |prefix|
  {
    var cats := prefix + [last];
    assert cats[..|prefix|] == prefix;
    TallyKeys(prefix);
    assert last !in Keys(TallyOf(prefix));
    assert last !in prefix;
    assert forall j :: 0 <= j < |prefix| ==> cats[j] == prefix[j];
  }

  /** The sum of the counts. */
  function Total(tally: Tally): nat
    decreases |tally|
  {
    if tally == [] then 0 else Total(tally[..|tally| - 1]) + tally[|tally| - 1].1
  }

  /** Counting one entry once more adds one to the sum. */
  lemma {:induction false} TotalIncrement(a: Tally, b: Tally, k: nat)
    requires |a| == |b| && k < |a|
    requires forall i :: 0 <= i < |a| && i != k ==> b[i].1 == a[i].1
    requires b[k].1 == a[k].1 + 1
    ensures Total(b) == Total(a) + 1
    decreases |a|
  {
    var n := |a| - 1;
    if k < n {
      TotalIncrement(a[..n], b[..n], k);
    } else {
      TotalSame(a[..n], b[..n]);
    }
  }

  lemma {:induction false} TotalSame(a: Tally, b: Tally)
    requires |a| == |b| && forall i :: 0 <= i < |a| ==> b[i].1 == a[i].1
    ensures Total(b) == Total(a)
    decreases |a|
  {
    if a != [] {
      TotalSame(a[..|a| - 1], b[..|b| - 1]);
    }
  }

  lemma BumpTotal(tally: Tally, c: string)
    requires DistinctKeys(tally)
    ensures Total(Bump(tally, c)) == Total(tally) + 1
  {
    var r := Bump(tally, c);
    if c in Keys(tally) {
      var k :| 0 <= k < |tally| && Keys(tally)[k] == c;
      TotalIncrement(tally, r, k);
    } else {
      assert r[..|tally|] == tally;
    }
  }

  /** Every moved file is counted once: the counts add up to their number. */
  lemma {:induction false} TallyTotal(cats: seq<string>)
    ensures Total(TallyOf(cats)) == |cats|
    decreases |cats|
  {
    if cats != [] {
      TallyTotal(cats[..|cats| - 1]);
      BumpTotal(TallyOf(cats[..|cats| - 1]), cats[|cats| - 1]);
    }
  }

  /** f"{cat}: {count} files" */
  function SummaryLine(c: string, n: nat): (line: string)
    ensures |line| > 0 && line[|line| - 1] == 's'
  {
    c + ": " + NatToString(n) + " files"
  }

  /** "\n".join(lines) */
  function Join(lines: seq<string>): (text: string)
    ensures lines == [] ==> text == ""
    ensures lines != [] ==>
              (|text| >= |lines[|lines| - 1]| && text[|text| - |lines[|lines| - 1]|..] == lines[|lines| - 1])
    decreases |lines|
  {
    if lines == [] then ""
    else if |lines| == 1 then lines[0]
    else Join(lines[..|lines| - 1]) + "\n" + lines[|lines| - 1]
  }

  function Lines(tally: Tally): (lines: seq<string>)
    ensures |lines| == |tally|
    ensures forall i :: 0 <= i < |tally| ==> lines[i] == SummaryLine(tally[i].0, tally[i].1)
  {
    seq(|tally|, i requires 0 <= i < |tally| => SummaryLine(tally[i].0, tally[i].1))
  }

  /** The text for the categories of the moved files. */
  function SummaryText(cats: seq<string>): (text: string)
    ensures text == NothingMoved <==> cats == []
  {
    var joined := Join(Lines(TallyOf(cats)));
    SummaryNonEmpty(cats);
    if joined == "" then NothingMoved else joined
  }

  /** get_summary(records) */
  function GetSummary(records: seq<Record>): (text: string)
    ensures text == NothingMoved <==> forall r :: r in records ==> r.action != Moved
  {
    MovedCategoriesEmpty(records);
    SummaryText(MovedCategories(records))
  }

  lemma MovedCategoriesEmpty(records: seq<Record>)
    ensures MovedCategories(records) == [] <==> forall r :: r in records ==> r.action != Moved
  {
    var cats := MovedCategories(records);
    if cats != [] {
      assert cats[0] in cats;
    }
    if r :| r in records && r.action == Moved {
      assert r.category in cats;
    }
  }

  /** The joined lines are empty exactly when nothing was moved, and
      otherwise end in "files", so they never read "No files moved.". */
  lemma SummaryNonEmpty(cats: seq<string>)
    ensures var joined := Join(Lines(TallyOf(cats)));
            (joined == "" <==> cats == []) &&
            (cats != [] ==> |joined| > 0 && joined[|joined| - 1] == 's' && joined != NothingMoved)
  {
    TallyKeys(cats);
    var tally := TallyOf(cats);
    var lines := Lines(tally);
    if cats != [] {
      assert cats[0] in Keys(tally);
      var last := lines[|lines| - 1];
      var joined := Join(lines);
      assert joined[|joined| - 1] == last[|last| - 1];
      assert NothingMoved[|NothingMoved| - 1] == '.';
    } else {
      assert Keys(tally) == [];
    }
  }

  /** The line of a category carries the number of its moved records, each
      category has one line, and the counts add up to the moved records. */
  lemma SummaryCounts(records: seq<Record>)
    ensures var cats := MovedCategories(records);
            var tally := TallyOf(cats);
            && Total(tally) == |MovedPositions(records)|
            && (forall c :: c in Keys(tally) <==> exists r :: r in records && r.action == Moved && r.category == c)
            && (forall i :: 0 <= i < |tally| ==>
                  Lines(tally)[i] == SummaryLine(tally[i].0, |MovedWith(records, tally[i].0)|))
  {
    var cats := MovedCategories(records);
    TallyKeys(cats);
    TallyCounts(cats);
    TallyTotal(cats);
    MovedCategoriesInOrder(records);
    forall i | 0 <= i < |TallyOf(cats)|
      ensures TallyOf(cats)[i].1 == |MovedWith(records, TallyOf(cats)[i].0)|
    {
      MovedCount(records, TallyOf(cats)[i].0);
    }
  }

  /** The lines come in the order of the first Moved record of each
      category: before any Moved record of a later line's category there
      is a Moved record of the earlier line's category. */
  lemma SummaryOrder(records: seq<Record>, i: nat, j: nat)
    requires i < j < |TallyOf(MovedCategories(records))|
    ensures var tally := TallyOf(MovedCategories(records));
            exists p :: 0 <= p < |records| && records[p].action == Moved && records[p].category == tally[i].0 &&
              forall q :: 0 <= q <= p && records[q].action == Moved ==> records[q].category != tally[j].0
  {
    var cats, ps := MovedCategories(records), MovedPositions(records);
    var tally := TallyOf(cats);
    TallyOrder(cats);
    MovedCategoriesInOrder(records);
    var a, b := FirstIndex(cats, tally[i].0), FirstIndex(cats, tally[j].0);
    var p := ps[a];
    forall q | 0 <= q <= p && records[q].action == Moved
      ensures records[q].category != tally[j].0
    {
      var m :| 0 <= m < |ps| && ps[m] == q;
      assert m <= a;
      assert cats[m] != tally[j].0;
    }
  }

  /** Previews are not counted: a record that was only previewed does not
      change the summary. */
  lemma PreviewIgnored(records: seq<Record>, r: Record)
    requires r.action == Preview
    ensures GetSummary(records + [r]) == GetSummary(records)
  {
    assert (records + [r])[..|records|] == records;
    assert MovedCategories(records + [r]) == MovedCategories(records);
  }

  lemma ExampleLines()
    ensures SummaryLine("Documents", 2) == "Documents: 2 files"
    ensures SummaryLine("Images", 1) == "Images: 1 files"
  {
    assert NatToString(2) == "2" && NatToString(1) == "1";
  }

  lemma ExampleMoved(a: Record, b: Record, c: Record, d: Record)
    requires a.action == Moved && a.category == "Documents"
    requires b.action == Preview
    requires c.action == Moved && c.category == "Images"
    requires d.action == Moved && d.category == "Documents"
    ensures MovedCategories([a, b, c, d]) == ["Documents", "Images", "Documents"]
  {
    assert [a, b, c, d][..3] == [a, b, c] && [a, b, c][..2] == [a, b];
    assert [a, b][..1] == [a] && [a][..0] == [];
    assert MovedCategories([a]) == ["Documents"];
    assert MovedCategories([a, b]) == ["Documents"];
    assert MovedCategories([a, b, c]) == ["Documents", "Images"];
  }

  lemma ExampleTally()
    ensures TallyOf(["Documents", "Images", "Documents"]) == [("Documents", 2), ("Images", 1)]
  {
    var cats := ["Documents", "Images", "Documents"];
    assert cats[..2] == ["Documents", "Images"] && cats[..2][..1] == ["Documents"];
    assert ["Documents"][..0] == [];
    assert TallyOf(["Documents"]) == [("Documents", 1)];
    assert "Images" != "Documents";
    assert TallyOf(["Documents", "Images"]) == [("Documents", 1), ("Images", 1)];
  }

  lemma ExampleJoin()
    ensures Join(Lines([("Documents", 2), ("Images", 1)])) == "Documents: 2 files\nImages: 1 files"
  {
    ExampleLines();
    var lines := Lines([("Documents", 2), ("Images", 1)]);
    assert lines == ["Documents: 2 files", "Images: 1 files"];
    assert lines[..1] == ["Documents: 2 files"];
  }

  /** Two moved documents and a moved image, with a preview in between. */
  lemma SummaryExample(a: Record, b: Record, c: Record, d: Record)
    requires a.action == Moved && a.category == "Documents"
    requires b.action == Preview
    requires c.action == Moved && c.category == "Images"
    requires d.action == Moved && d.category == "Documents"
    ensures GetSummary([a, b, c, d]) == "Documents: 2 files\nImages: 1 files"
  {
    ExampleMoved(a, b, c, d);
    ExampleTally();
    ExampleJoin();
  }

  // ---------------------------------------------------------------------
  // The summary of a run
  // ---------------------------------------------------------------------

  /** When every record is a move, every record is counted. */
  lemma {:induction false} AllMovedCounted(records: seq<Record>)
    requires forall r :: r in records ==> r.action == Moved
    ensures |MovedCategories(records)| == |records|
    decreases |records|
  {
    if records != [] {
      var prefix := records[..|records| - 1];
      assert forall r :: r in prefix ==> r in records;
      AllMovedCounted(prefix);
    }
  }

  /** A dry run moves nothing, so its summary is "No files moved."
      whatever it previewed. */
  lemma DryRunSummary(t: Tree, src: Path, dest: Path, listing: seq<string>, categoryOrder: seq<string>)
    ensures var result := Organize(t, src, dest, listing, categoryOrder, true).1;
            result.Ok? ==> GetSummary(result.value) == NothingMoved
  {
    RunRecordsShape(Prepared(t, dest, categoryOrder), src, dest, listing, true);
  }

  /** After a real run the summary counts every record once, under its
      category, and names exactly the categories of the records. */
  lemma ApplySummary(t: Tree, src: Path, dest: Path, listing: seq<string>, categoryOrder: seq<string>)
    ensures var result := Organize(t, src, dest, listing, categoryOrder, false).1;
            result.Ok? ==>
              var tally := TallyOf(MovedCategories(result.value));
              && Total(tally) == |result.value|
              && forall c :: c in Keys(tally) <==> exists r :: r in result.value && r.category == c
  {
    var records := Run(Prepared(t, dest, categoryOrder), src, dest, listing, false).1;
    RunRecordsShape(Prepared(t, dest, categoryOrder), src, dest, listing, false);
    AllMovedCounted(records);
    TallyTotal(MovedCategories(records));
    TallyKeys(MovedCategories(records));
  }
}
