/** Evicting to a size budget: the paged plan, and the pass that deletes what it chose. */
module Eviction {
  import opened Ids
  import opened Catalog

  /** A position in the (accessed_at, compressed_size, id) index. */
  datatype Cursor = Cursor(accessedAt: int, size: int, id: int)
  datatype Candidate = Candidate(outputId: Bytes, id: int, size: int, accessedAt: int)

  predicate Before(a: Cursor, b: Cursor) {
    a.accessedAt < b.accessedAt ||
    (a.accessedAt == b.accessedAt && (a.size < b.size || (a.size == b.size && a.id < b.id)))
  }

  function KeyOf(c: Candidate): Cursor {
    Cursor(c.accessedAt, c.size, c.id)
  }

  function CandidateOf(outputs: map<Bytes, Output>, o: Bytes): Candidate
    requires o in outputs
  {
    Candidate(o, outputs[o].id, outputs[o].compressedSize, outputs[o].accessedAt)
  }

  function Candidates(outputs: map<Bytes, Output>): set<Candidate> {
    set o | o in outputs :: CandidateOf(outputs, o)
  }

  /** The row id is the primary key. */
  predicate DistinctIds(cs: set<Candidate>) {
    forall a, b :: a in cs && b in cs && a.id == b.id ==> a == b
  }

  function After(cs: set<Candidate>, cursor: Cursor): set<Candidate> {
    set c | c in cs && Before(cursor, KeyOf(c))
  }

  /******* The rows in index order *******/

  predicate IsLeast(m: Candidate, cs: set<Candidate>) {
    m in cs && forall c :: c in cs && c != m ==> Before(KeyOf(m), KeyOf(c))
  }

  lemma {:induction false} LeastExists(cs: set<Candidate>)
    requires cs != {} && DistinctIds(cs)
    ensures exists m :: IsLeast(m, cs)
  {
    var c :| c in cs;
    if cs == {c} {
      assert IsLeast(c, cs);
    } else {
      LeastExists(cs - {c});
      var m :| IsLeast(m, cs - {c});
      assert IsLeast(if Before(KeyOf(c), KeyOf(m)) then c else m, cs);
    }
  }

  function Ranked(cs: set<Candidate>): seq<Candidate>
    requires DistinctIds(cs)
  {
    if cs == {} then [] else
    LeastExists(cs);
    var m :| IsLeast(m, cs);
    [m] + Ranked(cs - {m})
  }

  /** The page query: the first rows of the index after the cursor. */
  function Page(outputs: map<Bytes, Output>, cursor: Cursor, limit: nat): seq<Candidate>
    requires DistinctIds(Candidates(outputs))
  {
    var rows := Ranked(After(Candidates(outputs), cursor));
    if |rows| <= limit then rows else rows[..limit]
  }

  lemma {:induction false} RankedSorts(cs: set<Candidate>)
    requires DistinctIds(cs)
    ensures forall c :: c in Ranked(cs) <==> c in cs
    ensures forall i, j :: 0 <= i < j < |Ranked(cs)| ==> Before(KeyOf(Ranked(cs)[i]), KeyOf(Ranked(cs)[j]))
    ensures |Ranked(cs)| == |cs|
  {
    if cs != {} {
      var m := Ranked(cs)[0];
      RankedSorts(cs - {m});
      assert Ranked(cs) == [m] + Ranked(cs - {m});
    }
  }

  lemma AfterWithout(cs: set<Candidate>, m: Candidate, cursor: Cursor)
    requires !Before(cursor, KeyOf(m))
    ensures After(cs - {m}, cursor) == After(cs, cursor)
  {
  }

  /** A ranking is its first row, and then the ranking of the rest. */
  lemma RankedFirst(cs: set<Candidate>)
    requires DistinctIds(cs) && cs != {}
    ensures var m := Ranked(cs)[0]; IsLeast(m, cs) && Ranked(cs) == [m] + Ranked(cs - {m})
  {
    LeastExists(cs);
  }

  /** Index order: by access time, then by compressed size, then by row id. */
  lemma BeforeIs(outputs: map<Bytes, Output>, o: Bytes, p: Bytes)
    requires o in outputs && p in outputs && Before(KeyOf(CandidateOf(outputs, o)), KeyOf(CandidateOf(outputs, p)))
    ensures
      var a, b := outputs[o], outputs[p];
      if a.accessedAt != b.accessedAt then a.accessedAt < b.accessedAt
      else if a.compressedSize != b.compressedSize then a.compressedSize < b.compressedSize
      else a.id < b.id
  {
  }

  /** Dropping a prefix of the ranking ranks what is after its last row. */
  lemma {:induction false} RankedResumes(cs: set<Candidate>, n: nat)
    requires DistinctIds(cs) && 0 < n <= |Ranked(cs)|
    ensures Ranked(cs)[n..] == Ranked(After(cs, KeyOf(Ranked(cs)[n - 1])))
  {
    var m := Ranked(cs)[0];
    var rest, ranks := cs - {m}, Ranked(cs - {m});
    RankedFirst(cs);
    assert Ranked(cs)[n..] == ranks[n - 1..];
    if n == 1 {
      assert After(cs, KeyOf(m)) == rest;
      assert ranks[0..] == ranks;
    } else {
      var k: nat := n - 1;
      RankedResumes(rest, k);
      RankedSorts(rest);
      var last := ranks[k - 1];
      assert last in rest && Ranked(cs)[n - 1] == last;
      AfterWithout(cs, m, KeyOf(last));
    }
  }

  /******* What a plan is *******/

  function SumSizes(cs: seq<Candidate>): int {
    if cs == [] then 0 else SumSizes(cs[..|cs| - 1]) + cs[|cs| - 1].size
  }

  /** Nothing is chosen once the overshoot is covered. */
  ghost predicate NoFurtherThanNeeded(chosen: seq<Candidate>, overshoot: int) {
    forall k :: 0 <= k < |chosen| ==> SumSizes(chosen[..k]) < overshoot
  }

  /** The shortest prefix of the rows whose sizes cover the overshoot, or all of them. */
  ghost predicate Covers(chosen: seq<Candidate>, rows: seq<Candidate>, overshoot: int) {
    && chosen <= rows
    && NoFurtherThanNeeded(chosen, overshoot)
    && (SumSizes(chosen) >= overshoot || chosen == rows)
  }

  /** There is only one such prefix. */
  lemma CoverIsUnique(a: seq<Candidate>, b: seq<Candidate>, rows: seq<Candidate>, overshoot: int)
    requires Covers(a, rows, overshoot) && Covers(b, rows, overshoot)
    ensures a == b
  {
    assert a == rows[..|a|] && b == rows[..|b|];
    if |a| < |b| {
      assert b[..|a|] == a;
    }
    if |b| < |a| {
      assert a[..|b|] == b;
    }
  }

  ghost predicate NoDuplicates(cs: seq<Candidate>) {
    forall i, j :: 0 <= i < j < |cs| ==> cs[i].outputId != cs[j].outputId
  }

  function OutputIds(cs: seq<Candidate>): set<Bytes> {
    set i | 0 <= i < |cs| :: cs[i].outputId
  }

  /** The rows of all pages read, without the ones whose output was already listed. */
  function Distinct(rows: seq<Candidate>): seq<Candidate> {
    if rows == [] then [] else
    var before := Distinct(rows[..|rows| - 1]);
    var last := rows[|rows| - 1];
    if last.outputId in OutputIds(before) then before else before + [last]
  }

  function Flatten(pages: seq<seq<Candidate>>): seq<Candidate> {
    if pages == [] then [] else Flatten(pages[..|pages| - 1]) + pages[|pages| - 1]
  }

  lemma {:induction false} DistinctHasNoDuplicates(rows: seq<Candidate>)
    ensures NoDuplicates(Distinct(rows))
  {
    if rows != [] {
      DistinctHasNoDuplicates(rows[..|rows| - 1]);
    }
  }

  lemma {:induction false} DistinctGrows(rows: seq<Candidate>, more: seq<Candidate>)
    ensures Distinct(rows) <= Distinct(rows + more)
  {
    if more == [] {
      assert rows + more == rows;
    } else {
      DistinctGrows(rows, more[..|more| - 1]);
      assert (rows + more)[..|rows + more| - 1] == rows + more[..|more| - 1];
    }
  }

  lemma {:induction false} DistinctKeepsDistinct(rows: seq<Candidate>)
    requires NoDuplicates(rows)
    ensures Distinct(rows) == rows
  {
    if rows != [] {
      var before, last := rows[..|rows| - 1], rows[|rows| - 1];
      DistinctKeepsDistinct(before);
      assert rows == before + [last];
      forall i | 0 <= i < |before| ensures before[i].outputId != last.outputId {
        assert before[i] == rows[i];
      }
    }
  }

  /** The rows the plan looks at: nothing sorts below a zero-size row at the cutoff, so the
      scan starts just before one. */
  function FromCutoff(outputs: map<Bytes, Output>, cutoff: int): seq<Candidate>
    requires DistinctIds(Candidates(outputs))
  {
    Ranked(After(Candidates(outputs), Cursor(cutoff, -1, -1)))
  }

  lemma FromCutoffIsExact(outputs: map<Bytes, Output>, cutoff: int, o: Bytes)
    requires DistinctIds(Candidates(outputs)) && o in outputs
    requires forall p :: p in outputs ==> outputs[p].compressedSize >= 0
    ensures CandidateOf(outputs, o) in FromCutoff(outputs, cutoff) <==> outputs[o].accessedAt >= cutoff
  {
    RankedSorts(After(Candidates(outputs), Cursor(cutoff, -1, -1)));
    assert CandidateOf(outputs, o) in Candidates(outputs);
  }

  lemma FromCutoffIsDistinct(outputs: map<Bytes, Output>, cutoff: int)
    requires DistinctIds(Candidates(outputs))
    ensures NoDuplicates(FromCutoff(outputs, cutoff))
  {
    var rows := FromCutoff(outputs, cutoff);
    RankedSorts(After(Candidates(outputs), Cursor(cutoff, -1, -1)));
    forall i, j | 0 <= i < j < |rows|
      ensures rows[i].outputId != rows[j].outputId
    {
      assert rows[i] in Candidates(outputs) && rows[j] in Candidates(outputs);
      assert Before(KeyOf(rows[i]), KeyOf(rows[j]));
    }
  }

  lemma ResumesAfter(cs: set<Candidate>, cursor: Cursor, n: nat)
    requires DistinctIds(cs) && 0 < n <= |Ranked(After(cs, cursor))|
    ensures
      var rows := Ranked(After(cs, cursor));
      var next := After(cs, KeyOf(rows[n - 1]));
      Ranked(next) == rows[n..] && |next| < |After(cs, cursor)|
  {
    var rows := Ranked(After(cs, cursor));
    var next := KeyOf(rows[n - 1]);
    RankedSorts(After(cs, cursor));
    RankedResumes(After(cs, cursor), n);
    assert rows[n - 1] in After(cs, cursor);
    AfterTwice(cs, cursor, next);
    RankedSorts(After(cs, next));
  }

  /** The page after a page starts where that one ended, ties or not. */
  lemma NextPage(outputs: map<Bytes, Output>, cursor: Cursor, limit: nat)
    requires DistinctIds(Candidates(outputs)) && Page(outputs, cursor, limit) != []
    ensures
      var page := Page(outputs, cursor, limit);
      var rows := Ranked(After(Candidates(outputs), cursor));
      var next := After(Candidates(outputs), KeyOf(page[|page| - 1]));
      page == rows[..|page|] && Ranked(next) == rows[|page|..] &&
      |next| < |After(Candidates(outputs), cursor)|
  {
    var rows, page := Ranked(After(Candidates(outputs), cursor)), Page(outputs, cursor, limit);
    var n: nat := |page|;
    assert page == rows[..n] && page[n - 1] == rows[n - 1];
    ResumesAfter(Candidates(outputs), cursor, n);
  }

  lemma AfterTwice(cs: set<Candidate>, cursor: Cursor, next: Cursor)
    requires Before(cursor, next)
    ensures After(After(cs, cursor), next) == After(cs, next)
  {
  }

  /** What the planning loop knows: the need is the overshoot less what is chosen. */
  ghost predicate Tally(chosen: seq<Candidate>, seen: set<Bytes>, need: int, overshoot: int) {
    need == overshoot - SumSizes(chosen) && seen == OutputIds(chosen) && NoFurtherThanNeeded(chosen, overshoot)
  }

  /** While there is a need, everything listed is chosen. */
  ghost predicate Chosen(chosen: seq<Candidate>, listed: seq<Candidate>, need: int) {
    chosen <= Distinct(listed) && (need > 0 ==> chosen == Distinct(listed))
  }

  lemma TallyCovers(chosen: seq<Candidate>, seen: set<Bytes>, need: int, overshoot: int, listed: seq<Candidate>)
    requires Tally(chosen, seen, need, overshoot) && Chosen(chosen, listed, need)
    ensures Covers(chosen, Distinct(listed), overshoot)
    ensures need > 0 <==> SumSizes(chosen) < overshoot
  {
  }

  lemma ChosenFromPart(chosen: seq<Candidate>, listed: seq<Candidate>, batch: seq<Candidate>, i: nat, need: int)
    requires i <= |batch| && (need > 0 ==> i == |batch|)
    requires chosen == Distinct(listed + batch[..i])
    ensures Chosen(chosen, listed + batch, need)
  {
    DistinctGrows(listed + batch[..i], batch[i..]);
    assert listed + batch[..i] + batch[i..] == listed + batch;
    if i == |batch| {
      assert batch[..i] == batch;
    }
  }

  lemma TallyChooses(chosen: seq<Candidate>, seen: set<Bytes>, need: int, overshoot: int, c: Candidate)
    requires Tally(chosen, seen, need, overshoot) && need > 0
    ensures Tally(chosen + [c], seen + {c.outputId}, need - c.size, overshoot)
  {
    var longer := chosen + [c];
    assert longer[..|longer| - 1] == chosen;
    forall k | 0 <= k < |longer| ensures SumSizes(longer[..k]) < overshoot {
      if k < |chosen| {
        assert longer[..k] == chosen[..k];
      } else {
        assert longer[..k] == chosen;
      }
    }
    assert OutputIds(longer) == OutputIds(chosen) + {c.outputId} by {
      assert longer[|chosen|] == c;
      forall i | 0 <= i < |chosen| ensures chosen[i].outputId in OutputIds(longer) {
        assert longer[i] == chosen[i];
      }
    }
  }

  lemma DistinctTakesOne(rows: seq<Candidate>, c: Candidate)
    ensures Distinct(rows + [c]) ==
      Distinct(rows) + if c.outputId in OutputIds(Distinct(rows)) then [] else [c]
  {
    assert (rows + [c])[..|rows + [c]| - 1] == rows;
  }

  lemma FlattenTakesOne(pages: seq<seq<Candidate>>, page: seq<Candidate>)
    ensures Flatten(pages + [page]) == Flatten(pages) + page
  {
    assert (pages + [page])[..|pages + [page]| - 1] == pages;
  }

  function CursorAfter(start: Cursor, pages: seq<seq<Candidate>>): Cursor {
    if pages == [] || pages[|pages| - 1] == [] then start
    else var page := pages[|pages| - 1]; KeyOf(page[|page| - 1])
  }

  /** Each page is the query's answer from where the page before it ended, and only the
      last may be empty. */
  ghost predicate Chained(outputs: map<Bytes, Output>, start: Cursor, limit: nat, pages: seq<seq<Candidate>>)
    requires DistinctIds(Candidates(outputs))
  {
    pages == [] ||
    var earlier := pages[..|pages| - 1];
    && Chained(outputs, start, limit, earlier)
    && (earlier == [] || earlier[|earlier| - 1] != [])
    && pages[|pages| - 1] == Page(outputs, CursorAfter(start, earlier), limit)
  }

  lemma ChainedTakesOne(outputs: map<Bytes, Output>, start: Cursor, limit: nat,
                        pages: seq<seq<Candidate>>, page: seq<Candidate>)
    requires DistinctIds(Candidates(outputs))
    requires pages == [] || pages[|pages| - 1] != []
    ensures Flatten(pages + [page]) == Flatten(pages) + page
    ensures page != [] ==> CursorAfter(start, pages + [page]) == KeyOf(page[|page| - 1])
    ensures Chained(outputs, start, limit, pages) && page == Page(outputs, CursorAfter(start, pages), limit) ==>
      Chained(outputs, start, limit, pages + [page])
  {
    FlattenTakesOne(pages, page);
    assert (pages + [page])[..|pages + [page]| - 1] == pages;
  }

  /** The rows listed so far are a prefix of all rows from the start, and what the cursor
      has yet to list is the rest. */
  ghost predicate Lists(outputs: map<Bytes, Output>, cursor: Cursor, rows: seq<Candidate>, listed: seq<Candidate>)
    requires DistinctIds(Candidates(outputs))
  {
    rows == listed + Ranked(After(Candidates(outputs), cursor))
  }

  lemma ListsNext(outputs: map<Bytes, Output>, cursor: Cursor, limit: nat,
                  rows: seq<Candidate>, listed: seq<Candidate>)
    requires DistinctIds(Candidates(outputs)) && Lists(outputs, cursor, rows, listed)
    requires Page(outputs, cursor, limit) != []
    ensures
      var page := Page(outputs, cursor, limit);
      Lists(outputs, KeyOf(page[|page| - 1]), rows, listed + page)
  {
    NextPage(outputs, cursor, limit);
  }

  /** Pages chained by the cursor list the rows in order, none missed and none twice. */
  lemma {:induction false} ChainedLists(outputs: map<Bytes, Output>, start: Cursor, limit: nat,
                                        pages: seq<seq<Candidate>>)
    requires DistinctIds(Candidates(outputs))
    requires Chained(outputs, start, limit, pages)
    requires pages == [] || pages[|pages| - 1] != []
    ensures Lists(outputs, CursorAfter(start, pages), Ranked(After(Candidates(outputs), start)), Flatten(pages))
  {
    if pages != [] {
      var earlier := pages[..|pages| - 1];
      ChainedLists(outputs, start, limit, earlier);
      var rows := Ranked(After(Candidates(outputs), start));
      ListsNext(outputs, CursorAfter(start, earlier), limit, rows, Flatten(earlier));
    }
  }

  /** So they list a prefix of the rows, and all of them once a page is empty. */
  lemma ChainedListsAll(outputs: map<Bytes, Output>, start: Cursor, limit: nat, pages: seq<seq<Candidate>>)
    requires DistinctIds(Candidates(outputs)) && limit >= 1
    requires Chained(outputs, start, limit, pages)
    ensures Flatten(pages) <= Ranked(After(Candidates(outputs), start))
    ensures pages != [] && pages[|pages| - 1] == [] ==> Flatten(pages) == Ranked(After(Candidates(outputs), start))
  {
    if pages == [] || pages[|pages| - 1] != [] {
      ChainedLists(outputs, start, limit, pages);
    } else {
      ChainedLists(outputs, start, limit, pages[..|pages| - 1]);
    }
  }

  /** The pages read so far are the script's, as far as it goes. */
  ghost predicate Follows(pages: seq<seq<Candidate>>, script: seq<seq<Candidate>>, rest: seq<seq<Candidate>>) {
    && rest == (if |pages| <= |script| then script[|pages|..] else [])
    && forall k :: 0 <= k < |pages| && k < |script| ==> pages[k] == script[k]
  }

  lemma FollowsTakesOne(pages: seq<seq<Candidate>>, script: seq<seq<Candidate>>, rest: seq<seq<Candidate>>,
                        page: seq<Candidate>)
    requires Follows(pages, script, rest)
    requires rest != [] ==> page == rest[0]
    ensures Follows(pages + [page], script, if rest == [] then [] else rest[1..])
  {
  }

  /** Where the paging is: the pages so far, none empty, and the cursor they leave. */
  ghost predicate Paged(outputs: map<Bytes, Output>, start: Cursor, limit: nat, script: seq<seq<Candidate>>,
                        rest: seq<seq<Candidate>>, pages: seq<seq<Candidate>>, cursor: Cursor)
    requires DistinctIds(Candidates(outputs))
  {
    && Follows(pages, script, rest)
    && (script == [] ==> Chained(outputs, start, limit, pages))
    && (pages == [] || pages[|pages| - 1] != [])
    && cursor == CursorAfter(start, pages)
  }

  function NextOf(outputs: map<Bytes, Output>, rest: seq<seq<Candidate>>, cursor: Cursor, limit: nat): seq<Candidate>
    requires DistinctIds(Candidates(outputs))
  {
    if rest == [] then Page(outputs, cursor, limit) else rest[0]
  }

  lemma PagedTakesOne(outputs: map<Bytes, Output>, start: Cursor, limit: nat, script: seq<seq<Candidate>>,
                      rest: seq<seq<Candidate>>, pages: seq<seq<Candidate>>, cursor: Cursor, batch: seq<Candidate>)
    requires DistinctIds(Candidates(outputs)) && Paged(outputs, start, limit, script, rest, pages, cursor)
    requires batch == NextOf(outputs, rest, cursor, limit)
    ensures Flatten(pages + [batch]) == Flatten(pages) + batch
    ensures Follows(pages + [batch], script, if rest == [] then [] else rest[1..])
    ensures script == [] ==> Chained(outputs, start, limit, pages + [batch])
    ensures batch != [] ==>
      var next := KeyOf(batch[|batch| - 1]);
      && Paged(outputs, start, limit, script, if rest == [] then [] else rest[1..], pages + [batch], next)
      && (rest == [] ==> |After(Candidates(outputs), next)| < |After(Candidates(outputs), cursor)|)
  {
    FollowsTakesOne(pages, script, rest, batch);
    ChainedTakesOne(outputs, start, limit, pages, batch);
    if batch != [] && rest == [] {
      NextPage(outputs, cursor, limit);
    }
  }

  /** The catalog a plan pages through. The first |script| queries run while other processes
      change it, and may return anything at all; from then on it does not change. */
  class PageSource {
    var script: seq<seq<Candidate>>
    const outputs: map<Bytes, Output>

    constructor (script: seq<seq<Candidate>>, outputs: map<Bytes, Output>)
      ensures this.script == script && this.outputs == outputs
    {
      this.script := script;
      this.outputs := outputs;
    }

    method EvictionCandidates(cursor: Cursor, limit: nat) returns (page: seq<Candidate>)
      requires DistinctIds(Candidates(outputs))
      modifies this
      ensures old(script) == [] ==> script == [] && page == Page(outputs, cursor, limit)
      ensures old(script) != [] ==> page == old(script)[0] && script == old(script)[1..]
    {
      if script == [] {
        page := Page(outputs, cursor, limit);
      } else {
        page := script[0];
        script := script[1..];
      }
    }

    /** The next page, and the cursor it leaves if it is not empty. */
    method NextBatch(cursor: Cursor, limit: nat, ghost start: Cursor, ghost before: seq<seq<Candidate>>,
                     ghost pages: seq<seq<Candidate>>)
        returns (batch: seq<Candidate>, next: Cursor, ghost pages': seq<seq<Candidate>>)
      requires DistinctIds(Candidates(outputs)) && Paged(outputs, start, limit, before, script, pages, cursor)
      modifies this
      ensures pages' == pages + [batch] && Flatten(pages') == Flatten(pages) + batch
      ensures Follows(pages', before, script) && (before == [] ==> Chained(outputs, start, limit, pages'))
      ensures batch != [] ==> Paged(outputs, start, limit, before, script, pages', next)
      ensures |script| < |old(script)| || script == old(script)
      ensures batch != [] && script == old(script) ==>
        |After(Candidates(outputs), next)| < |After(Candidates(outputs), cursor)|
    {
      ghost var rest := script;
      batch := EvictionCandidates(cursor, limit);
      PagedTakesOne(outputs, start, limit, before, rest, pages, cursor, batch);
      pages' := pages + [batch];
      next := cursor;
      if batch != [] {
        next := KeyOf(batch[|batch| - 1]);
      }
    }

    /** Takes one page's outputs that are not chosen yet, until nothing is needed. */
    method ChooseFrom(batch: seq<Candidate>, chosen: seq<Candidate>, before: set<Bytes>, needed: int,
                      ghost listed: seq<Candidate>, ghost overshoot: int)
        returns (candidates: seq<Candidate>, seen: set<Bytes>, need: int)
      requires needed > 0 && Tally(chosen, before, needed, overshoot) && Chosen(chosen, listed, needed)
      ensures Tally(candidates, seen, need, overshoot) && Chosen(candidates, listed + batch, need)
    {
      candidates, seen, need := chosen, before, needed;
      var i := 0;
      assert listed + batch[..0] == listed;
      while i < |batch|
        invariant 0 <= i <= |batch| && need > 0
        invariant Tally(candidates, seen, need, overshoot)
        invariant candidates == Distinct(listed + batch[..i])
      {
        var candidate := batch[i];
        DistinctTakesOne(listed + batch[..i], candidate);
        assert listed + batch[..i] + [candidate] == listed + batch[..i + 1];
        i := i + 1;
        if candidate.outputId in seen {
          continue;
        }
        TallyChooses(candidates, seen, need, overshoot, candidate);
        seen := seen + {candidate.outputId};
        candidates := candidates + [candidate];
        need := need - candidate.size;
        if need <= 0 {
          break;
        }
      }
      ChosenFromPart(candidates, listed, batch, i, need);
    }

    /** Lists outputs to evict, least recently used first, until they cover the overshoot.
        Whatever the pages hold, the plan is the shortest covering prefix of the rows
        listed, repeats of an output left out, or all of them once a page comes back
        empty. On an unchanging catalog the pages are the ones the cursor chains. */
    method PlanToMaxSize(maxSize: int, total: int, entryCutoff: int, pageSize: nat)
        returns (candidates: seq<Candidate>, ghost pages: seq<seq<Candidate>>)
      requires DistinctIds(Candidates(outputs)) && pageSize >= 1
      modifies this
      ensures maxSize <= 0 || total <= maxSize ==> candidates == [] && pages == []
      ensures Follows(pages, old(script), script)
      ensures maxSize > 0 ==> Covers(candidates, Distinct(Flatten(pages)), total - maxSize)
      ensures maxSize > 0 && SumSizes(candidates) < total - maxSize ==> pages != [] && pages[|pages| - 1] == []
      ensures old(script) == [] ==> Chained(outputs, Cursor(entryCutoff, -1, -1), pageSize, pages)
    {
      candidates, pages := [], [];
      if maxSize <= 0 {
        return;
      }
      if total <= maxSize {
        return;
      }
      var cursor := Cursor(entryCutoff, -1, -1);
      var need := total - maxSize;
      var seen: set<Bytes> := {};
      ghost var before, start := script, cursor;
      while need > 0
        invariant Tally(candidates, seen, need, total - maxSize)
        invariant Chosen(candidates, Flatten(pages), need)
        invariant Paged(outputs, start, pageSize, before, script, pages, cursor)
        decreases |script|, |After(Candidates(outputs), cursor)|
      {
        ghost var listed := Flatten(pages);
        var batch;
        batch, cursor, pages := NextBatch(cursor, pageSize, start, before, pages);
        if batch == [] {
          assert listed + batch == listed;
          break;
        }
        candidates, seen, need := ChooseFrom(batch, candidates, seen, need, listed, total - maxSize);
      }
      TallyCovers(candidates, seen, need, total - maxSize, Flatten(pages));
    }
  }

  /** Whatever the pages held, no output is chosen twice. */
  lemma PlanNeverRepeats(chosen: seq<Candidate>, pages: seq<seq<Candidate>>, overshoot: int)
    requires Covers(chosen, Distinct(Flatten(pages)), overshoot)
    ensures NoDuplicates(chosen)
  {
    DistinctHasNoDuplicates(Flatten(pages));
  }

  /** On an unchanging catalog the plan is the shortest covering prefix of the rows at or
      after the cutoff, or all of them, however small the page and however many rows tie. */
  lemma StablePlan(outputs: map<Bytes, Output>, cutoff: int, limit: nat, pages: seq<seq<Candidate>>,
                   chosen: seq<Candidate>, overshoot: int)
    requires DistinctIds(Candidates(outputs)) && limit >= 1
    requires Chained(outputs, Cursor(cutoff, -1, -1), limit, pages)
    requires Covers(chosen, Distinct(Flatten(pages)), overshoot)
    requires SumSizes(chosen) < overshoot ==> pages != [] && pages[|pages| - 1] == []
    ensures Covers(chosen, FromCutoff(outputs, cutoff), overshoot)
  {
    ChainedListsAll(outputs, Cursor(cutoff, -1, -1), limit, pages);
    FromCutoffIsDistinct(outputs, cutoff);
    DistinctKeepsDistinct(Flatten(pages));
  }
}
