/**
  The library listing of the command-line front end: a depth-first walk of the
  ContentDirectory tree, printed one line per object, that stops once
  `max_items` objects have been printed. The server is untrusted, so the tree
  it describes may be infinite or cyclic; the budget alone bounds the walk.
 */
module Listing {
  import opened Wrappers
  import opened Didl
  import opened Tester
  import opened Phases

  /** A printed line: an object at an indentation level, or the limit notice. */
  datatype Line = Entry(item: MediaItem, indent: nat) | LimitReached(indent: nat)

  /** What the walk has done so far: the two counters, the browsed ids and the printed lines. */
  datatype Progress = Progress(containers: nat, items: nat, requests: seq<string>, lines: seq<Line>)
  {
    function Total(): nat {
      containers + items
    }
  }

  const Start := Progress(0, 0, [], [])

  /** The number of object lines among `lines`. */
  function Printed(lines: seq<Line>): nat
    decreases |lines|
  {
    if lines == [] then 0
    else Printed(lines[..|lines| - 1]) + (if lines[|lines| - 1].Entry? then 1 else 0)
  }

  /** The objects printed at exactly `indent`, in printing order. */
  function EntriesAt(lines: seq<Line>, indent: nat): seq<MediaItem>
    decreases |lines|
  {
    if lines == [] then []
    else
      var last := lines[|lines| - 1];
      EntriesAt(lines[..|lines| - 1], indent) + (if last.Entry? && last.indent == indent then [last.item] else [])
  }

  predicate IsPrefix<T(==)>(a: seq<T>, b: seq<T>) {
    |a| <= |b| && b[..|a|] == a
  }

  /** The lines printed after `p` and up to `q`. */
  function Added(p: Progress, q: Progress): seq<Line>
    requires |p.lines| <= |q.lines|
  {
    q.lines[|p.lines|..]
  }

  /** The children query of the listing: all direct children, with no count limit. */
  function ListingChildren(browse: Browser, id: string): Option<BrowseResult> {
    browse(id, ChildrenFlag, "*", 0, 0, "")
  }

  /**
    `browse_recursive(object_id, indent)`: nothing once the budget is spent;
    otherwise one browse request, and on success the walk over its children.
    Every container printed has been counted before it is entered, so the
    unspent budget shrinks on each descent: the walk ends even on a cyclic tree.
   */
  function ListContainer(browse: Browser, id: string, indent: nat, maxItems: int, p: Progress): (q: Progress)
    ensures q.containers >= p.containers && q.items >= p.items
    ensures p.Total() >= maxItems ==> q == p
    decreases maxItems - p.Total(), 1, 0
  {
    if p.Total() >= maxItems then p
    else
      var asked := p.(requests := p.requests + [id]);
      match ListingChildren(browse, id)
      case None => asked
      case Some(result) => ListChildren(browse, result.items, indent, maxItems, asked)
  }

  /** The loop of `browse_recursive` over the children `items`, printed at `indent`. */
  function ListChildren(browse: Browser, items: seq<MediaItem>, indent: nat, maxItems: int, p: Progress): (q: Progress)
    ensures q.containers >= p.containers && q.items >= p.items
    decreases maxItems - p.Total(), 0, |items|
  {
    if items == [] then p
    else if p.Total() >= maxItems then p.(lines := p.lines + [LimitReached(indent)])
    else
      var first := items[0];
      var shown := p.(lines := p.lines + [Entry(first, indent)]);
      if first.isContainer then
        var inner := ListContainer(browse, first.id, indent + 1, maxItems, shown.(containers := shown.containers + 1));
        ListChildren(browse, items[1..], indent, maxItems, inner)
      else
        ListChildren(browse, items[1..], indent, maxItems, shown.(items := shown.items + 1))
  }

  /**
    The budget: a walk that starts within `max_items` stays within it, it sends
    at most one browse request per container entered plus its own, and the two
    counters grow by exactly the number of object lines printed.
   */
  lemma {:induction false} ContainerBudget(browse: Browser, id: string, indent: nat, maxItems: int, p: Progress)
    ensures var q := ListContainer(browse, id, indent, maxItems, p);
      (p.Total() <= maxItems ==> q.Total() <= maxItems)
      && |q.requests| <= |p.requests| + (q.containers - p.containers) + 1
      && Printed(q.lines) - Printed(p.lines) == q.Total() - p.Total()
    decreases maxItems - p.Total(), 1, 0
  {
    if p.Total() < maxItems {
      var asked := p.(requests := p.requests + [id]);
      if ListingChildren(browse, id).Some? {
        ChildrenBudget(browse, ListingChildren(browse, id).value.items, indent, maxItems, asked);
      }
    }
  }

  lemma {:induction false} ChildrenBudget(browse: Browser, items: seq<MediaItem>, indent: nat, maxItems: int, p: Progress)
    ensures var q := ListChildren(browse, items, indent, maxItems, p);
      (p.Total() <= maxItems ==> q.Total() <= maxItems)
      && |q.requests| <= |p.requests| + (q.containers - p.containers)
      && Printed(q.lines) - Printed(p.lines) == q.Total() - p.Total()
    decreases maxItems - p.Total(), 0, |items|
  {
    if items == [] {
    } else if p.Total() >= maxItems {
      PrintedSnoc(p.lines, LimitReached(indent));
    } else {
      var shown := ChildrenStep(browse, items, indent, maxItems, p);
      PrintedSnoc(p.lines, Entry(items[0], indent));
      VisitBudget(browse, items[0], indent, maxItems, shown);
      ChildrenBudget(browse, items[1..], indent, maxItems, Visit(browse, items[0], indent, maxItems, shown));
    }
  }

  /** The budget over one child: its own line, and its subtree when it is a container. */
  lemma {:induction false} VisitBudget(browse: Browser, first: MediaItem, indent: nat, maxItems: int, shown: Progress)
    requires shown.Total() < maxItems
    ensures var v := Visit(browse, first, indent, maxItems, shown);
      v.Total() <= maxItems
      && |v.requests| <= |shown.requests| + (v.containers - shown.containers)
      && Printed(v.lines) - Printed(shown.lines) + 1 == v.Total() - shown.Total()
    decreases maxItems - shown.Total(), 0, 0
  {
    if first.isContainer {
      ContainerBudget(browse, first.id, indent + 1, maxItems, shown.(containers := shown.containers + 1));
    }
  }

  /** The progress after a child's line has been printed: counted, and walked into when a container. */
  function Visit(browse: Browser, first: MediaItem, indent: nat, maxItems: int, shown: Progress): (v: Progress)
    ensures v.containers >= shown.containers && v.items >= shown.items
  {
    if first.isContainer then ListContainer(browse, first.id, indent + 1, maxItems, shown.(containers := shown.containers + 1))
    else shown.(items := shown.items + 1)
  }

  /** One step of the children loop within the budget: print the first child, visit it, go on with the rest. */
  lemma ChildrenStep(browse: Browser, items: seq<MediaItem>, indent: nat, maxItems: int, p: Progress)
    returns (shown: Progress)
    requires items != [] && p.Total() < maxItems
    ensures shown == p.(lines := p.lines + [Entry(items[0], indent)])
    ensures ListChildren(browse, items, indent, maxItems, p)
            == ListChildren(browse, items[1..], indent, maxItems, Visit(browse, items[0], indent, maxItems, shown))
  {
    shown := p.(lines := p.lines + [Entry(items[0], indent)]);
  }

  lemma PrintedSnoc(lines: seq<Line>, l: Line)
    ensures Printed(lines + [l]) == Printed(lines) + (if l.Entry? then 1 else 0)
  {
    assert (lines + [l])[..|lines|] == lines;
  }

  /**
    The printing: lines are only ever appended, and everything a container's
    walk prints is at its own indent or deeper.
   */
  lemma {:induction false} ContainerLines(browse: Browser, id: string, indent: nat, maxItems: int, p: Progress)
    ensures var q := ListContainer(browse, id, indent, maxItems, p);
      IsPrefix(p.lines, q.lines)
      && forall k :: |p.lines| <= k < |q.lines| ==> q.lines[k].indent >= indent
    decreases maxItems - p.Total(), 1, 0
  {
    if p.Total() < maxItems {
      var asked := p.(requests := p.requests + [id]);
      if ListingChildren(browse, id).Some? {
        ChildrenLines(browse, ListingChildren(browse, id).value.items, indent, maxItems, asked);
      }
    }
  }

  lemma {:induction false} ChildrenLines(browse: Browser, items: seq<MediaItem>, indent: nat, maxItems: int, p: Progress)
    ensures var q := ListChildren(browse, items, indent, maxItems, p);
      IsPrefix(p.lines, q.lines)
      && forall k :: |p.lines| <= k < |q.lines| ==> q.lines[k].indent >= indent
    decreases maxItems - p.Total(), 0, |items|
  {
    if items == [] {
    } else if p.Total() >= maxItems {
      var lines := p.lines + [LimitReached(indent)];
      assert lines[..|p.lines|] == p.lines;
    } else {
      var shown := ChildrenStep(browse, items, indent, maxItems, p);
      var next := Visit(browse, items[0], indent, maxItems, shown);
      VisitLines(browse, items[0], indent, maxItems, shown);
      ChildrenLines(browse, items[1..], indent, maxItems, next);
      LinesStep(p.lines, Entry(items[0], indent), indent, next.lines, ListChildren(browse, items[1..], indent, maxItems, next).lines);
    }
  }

  /** The lines over one child: appended after its own line, all deeper than the child's level. */
  lemma {:induction false} VisitLines(browse: Browser, first: MediaItem, indent: nat, maxItems: int, shown: Progress)
    requires shown.Total() < maxItems
    ensures var v := Visit(browse, first, indent, maxItems, shown);
      IsPrefix(shown.lines, v.lines)
      && forall k :: |shown.lines| <= k < |v.lines| ==> v.lines[k].indent > indent
    decreases maxItems - shown.Total(), 0, 0
  {
    if first.isContainer {
      ContainerLines(browse, first.id, indent + 1, maxItems, shown.(containers := shown.containers + 1));
    }
  }

  /** Gluing the lines of one step: the child's line, its subtree, then the later siblings. */
  lemma LinesStep(before: seq<Line>, own: Line, indent: nat, afterChild: seq<Line>, after: seq<Line>)
    requires own.indent == indent
    requires IsPrefix(before + [own], afterChild)
    requires forall k :: |before| + 1 <= k < |afterChild| ==> afterChild[k].indent > indent
    requires IsPrefix(afterChild, after)
    requires forall k :: |afterChild| <= k < |after| ==> after[k].indent >= indent
    ensures IsPrefix(before, after)
    ensures forall k :: |before| <= k < |after| ==> after[k].indent >= indent
  {
    assert (before + [own])[..|before|] == before;
    PrefixTrans(before, before + [own], afterChild, after);
    forall k | |before| <= k < |after|
      ensures after[k].indent >= indent
    {
      if k < |afterChild| {
        assert after[k] == afterChild[k];
        if k == |before| {
          assert afterChild[k] == (before + [own])[k];
        }
      }
    }
  }

  lemma PrefixTrans<T>(a: seq<T>, b: seq<T>, c: seq<T>, d: seq<T>)
    requires IsPrefix(a, b) && IsPrefix(b, c) && IsPrefix(c, d)
    ensures IsPrefix(a, d)
  {
    assert d[..|a|] == c[..|b|][..|a|];
  }

  /** From an empty start the counters never exceed a non-negative budget. */
  lemma ListingBounds(browse: Browser, maxItems: int)
    ensures var q := ListContainer(browse, "0", 0, maxItems, Start);
      (maxItems >= 0 ==> q.Total() <= maxItems && q.containers <= maxItems)
      && (maxItems <= 0 ==> q == Start)
      && |q.requests| <= q.containers + 1
      && q.Total() == Printed(q.lines)
  {
    ContainerBudget(browse, "0", 0, maxItems, Start);
  }

  /** A browse that fails leaves both counters and the printed lines as they were. */
  lemma FailedBrowseChangesNothing(browse: Browser, id: string, indent: nat, maxItems: int, p: Progress)
    requires ListingChildren(browse, id).None?
    ensures var q := ListContainer(browse, id, indent, maxItems, p);
      q.containers == p.containers && q.items == p.items && q.lines == p.lines
      && (p.Total() < maxItems ==> q.requests == p.requests + [id])
  {
  }

  lemma {:induction false} EntriesAtAppend(a: seq<Line>, b: seq<Line>, indent: nat)
    ensures EntriesAt(a + b, indent) == EntriesAt(a, indent) + EntriesAt(b, indent)
    decreases |b|
  {
    if b == [] {
      assert a + b == a;
    } else {
      assert (a + b)[..|a + b| - 1] == a + b[..|b| - 1];
      EntriesAtAppend(a, b[..|b| - 1], indent);
    }
  }

  lemma {:induction false} EntriesAtDeeper(lines: seq<Line>, indent: nat)
    requires forall k :: 0 <= k < |lines| ==> lines[k].indent > indent
    ensures EntriesAt(lines, indent) == []
    decreases |lines|
  {
    if lines != [] {
      EntriesAtDeeper(lines[..|lines| - 1], indent);
    }
  }

  /**
    Depth-first listing order: the objects printed at the level of `items` are
    the first of `items`, in their order (everything else printed is deeper, so
    each container's subtree comes before its next sibling), and a child is left
    out only once the budget is spent.
   */
  lemma {:induction false} ChildrenInOrder(browse: Browser, items: seq<MediaItem>, indent: nat, maxItems: int, p: Progress)
    ensures var q := ListChildren(browse, items, indent, maxItems, p);
      IsPrefix(p.lines, q.lines)
      && var shown := EntriesAt(Added(p, q), indent);
      IsPrefix(shown, items) && (|shown| < |items| ==> q.Total() >= maxItems)
    decreases maxItems - p.Total(), |items|
  {
    var q := ListChildren(browse, items, indent, maxItems, p);
    ChildrenLines(browse, items, indent, maxItems, p);
    if items == [] {
      assert Added(p, q) == [];
    } else if p.Total() >= maxItems {
      assert Added(p, q) == [LimitReached(indent)];
      assert EntriesAt(Added(p, q), indent) == EntriesAt([], indent) + [];
    } else {
      var first := items[0];
      var shown := ChildrenStep(browse, items, indent, maxItems, p);
      var next := Visit(browse, first, indent, maxItems, shown);
      VisitLines(browse, first, indent, maxItems, shown);
      ChildrenInOrder(browse, items[1..], indent, maxItems, next);
      PrintedChild(p.lines, first, indent, next.lines, q.lines);
      var rest := EntriesAt(Added(next, q), indent);
      assert EntriesAt(Added(p, q), indent) == [first] + rest;
      PrefixCons(first, rest, items);
    }
  }

  /**
    The lines a parent prints for one child: the child's own line, then its
    deeper subtree, then whatever the later siblings print.
   */
  lemma PrintedChild(before: seq<Line>, first: MediaItem, indent: nat, afterChild: seq<Line>, after: seq<Line>)
    requires IsPrefix(before + [Entry(first, indent)], afterChild) && IsPrefix(afterChild, after)
    requires forall k :: |before| + 1 <= k < |afterChild| ==> afterChild[k].indent > indent
    ensures IsPrefix(before, after)
    ensures EntriesAt(after[|before|..], indent) == [first] + EntriesAt(after[|afterChild|..], indent)
  {
    var own := [Entry(first, indent)];
    var sub := afterChild[|before| + 1..];
    assert forall k :: 0 <= k < |sub| ==> sub[k].indent > indent by {
      forall k | 0 <= k < |sub| ensures sub[k].indent > indent {
        assert sub[k] == afterChild[|before| + 1 + k];
      }
    }
    EntriesAtDeeper(sub, indent);
    assert after[|before|..] == own + sub + after[|afterChild|..] by {
      assert after == afterChild + after[|afterChild|..];
      assert afterChild == before + own + sub;
    }
    EntriesAtAppend(own + sub, after[|afterChild|..], indent);
    EntriesAtAppend(own, sub, indent);
    assert EntriesAt(own, indent) == EntriesAt([], indent) + [first];
  }

  lemma PrefixCons<T>(x: T, a: seq<T>, b: seq<T>)
    requires b != [] && b[0] == x && IsPrefix(a, b[1..])
    ensures IsPrefix([x] + a, b) && |[x] + a| - |b| == |a| - |b[1..]|
  {
    assert b[..|a| + 1] == [x] + b[1..][..|a|];
  }

  /** The children of a successful browse are printed at its indent, in order, as far as the budget allows. */
  lemma ContainerInOrder(browse: Browser, id: string, indent: nat, maxItems: int, p: Progress)
    requires p.Total() < maxItems && ListingChildren(browse, id).Some?
    ensures var q := ListContainer(browse, id, indent, maxItems, p);
      var children := ListingChildren(browse, id).value.items;
      IsPrefix(p.lines, q.lines)
      && var shown := EntriesAt(Added(p, q), indent);
      IsPrefix(shown, children) && (|shown| < |children| ==> q.Total() >= maxItems)
  {
    var asked := p.(requests := p.requests + [id]);
    ChildrenInOrder(browse, ListingChildren(browse, id).value.items, indent, maxItems, asked);
  }

  /** The two counters and the printing of `run_listing`, updated by `browse_recursive`. */
  class TreeLister {
    const browse: Browser
    const maxItems: int
    var totalContainers: nat
    var totalItems: nat
    var requests: seq<string>
    var lines: seq<Line>

    function State(): Progress
      reads this
    {
      Progress(totalContainers, totalItems, requests, lines)
    }

    constructor(browse: Browser, maxItems: int)
      ensures this.browse == browse && this.maxItems == maxItems
      ensures State() == Start
    {
      this.browse := browse;
      this.maxItems := maxItems;
      totalContainers, totalItems := 0, 0;
      requests, lines := [], [];
    }

    /** `browse_recursive`. */
    method BrowseRecursive(objectId: string, indent: nat)
      modifies this
      ensures State() == ListContainer(browse, objectId, indent, maxItems, old(State()))
      decreases maxItems - (totalContainers + totalItems), 1, 0
    {
      if totalContainers + totalItems >= maxItems {
        return;
      }
      requests := requests + [objectId];
      var result := ListingChildren(browse, objectId);
      if result.None? {
        return;
      }
      BrowseChildren(result.value.items, indent);
    }

    /** The loop of `browse_recursive` over the children it got back. */
    method BrowseChildren(items: seq<MediaItem>, indent: nat)
      modifies this
      ensures State() == ListChildren(browse, items, indent, maxItems, old(State()))
      decreases maxItems - (totalContainers + totalItems), 0, 0
    {
      for i := 0 to |items|
        invariant ListChildren(browse, items[i..], indent, maxItems, State())
                  == ListChildren(browse, items, indent, maxItems, old(State()))
        invariant totalContainers + totalItems >= old(State()).Total()
      {
        ghost var before := State();
        assert items[i..][1..] == items[i + 1..];
        if totalContainers + totalItems >= maxItems {
          lines := lines + [LimitReached(indent)];
          return;
        }
        ghost var shown := ChildrenStep(browse, items[i..], indent, maxItems, before);
        lines := lines + [Entry(items[i], indent)];
        if items[i].isContainer {
          totalContainers := totalContainers + 1;
          BrowseRecursive(items[i].id, indent + 1);
        } else {
          totalItems := totalItems + 1;
        }
        assert State() == Visit(browse, items[i], indent, maxItems, shown);
      }
    }
  }

  /**
    `run_listing` after the device description was fetched: exit status 1 when
    no ContentDirectory service was found, otherwise the walk from the root
    container "0" and exit status 0 with the folder and file totals.
   */
  method RunListing(hasContentDirectory: bool, browse: Browser, maxItems: int)
    returns (exitCode: int, folders: nat, files: nat)
    ensures !hasContentDirectory ==> exitCode == 1 && folders == 0 && files == 0
    ensures hasContentDirectory ==>
              var q := ListContainer(browse, "0", 0, maxItems, Start);
              exitCode == 0 && folders == q.containers && files == q.items
  {
    if !hasContentDirectory {
      return 1, 0, 0;
    }
    var lister := new TreeLister(browse, maxItems);
    lister.BrowseRecursive("0", 0);
    return 0, lister.totalContainers, lister.totalItems;
  }
}
