/** Sizing a directory tree without following links (backend/app/core/paths.py:244-292). */
module TreeSize {
  import opened Options

  /** What a scan finds under a name. A directory's entries are those its scan yields before it ends or
      fails; an unreadable one has none. */
  datatype Node =
    | File(extension: string, size: Option<nat>)     // no size when it cannot be examined
    | Directory(entries: Entries)
    | Link(target: Entries)                          // to anything, possibly back up the tree
    | Other                                          // a device, or an entry whose kind cannot be read

  datatype Entries = Nil | Entry(first: Node, rest: Entries)

  datatype Totals = Totals(bytes: nat, files: nat) {
    function Plus(t: Totals): (sum: Totals)
      ensures t == NOTHING ==> sum == this
      ensures this == NOTHING ==> sum == t
    {
      assert this == Totals(bytes, files) && t == Totals(t.bytes, t.files);
      Totals(bytes + t.bytes, files + t.files)
    }
  }

  const NOTHING: Totals := Totals(0, 0)

  predicate Wanted(wanted: Option<set<string>>, extension: string) {
    wanted.None? || extension in wanted.value
  }

  /** What a file by itself counts for. */
  function OfFile(node: Node, wanted: Option<set<string>>): Totals {
    if node.File? && Wanted(wanted, node.extension) && node.size.Some? then Totals(node.size.value, 1) else NOTHING
  }

  // ----- The recursive sum --------------------------------------------------------------

  function Sum(entries: Entries, wanted: Option<set<string>>): Totals {
    match entries
    case Nil => NOTHING
    case Entry(first, rest) =>
      (if first.Directory? then Sum(first.entries, wanted) else OfFile(first, wanted)).Plus(Sum(rest, wanted))
  }

  // ----- The walk -----------------------------------------------------------------------

  /** How many entries and directories are below, links not followed. */
  function Weight(entries: Entries): nat {
    match entries
    case Nil => 1
    case Entry(first, rest) => 1 + (if first.Directory? then Weight(first.entries) else 0) + Weight(rest)
  }

  function StackWeight(stack: seq<Entries>): nat {
    if stack == [] then 0 else StackWeight(stack[..|stack| - 1]) + Weight(stack[|stack| - 1])
  }

  function StackSum(stack: seq<Entries>, wanted: Option<set<string>>): Totals {
    if stack == [] then NOTHING
    else StackSum(stack[..|stack| - 1], wanted).Plus(Sum(stack[|stack| - 1], wanted))
  }

  lemma Push(stack: seq<Entries>, top: Entries, wanted: Option<set<string>>)
    ensures StackSum(stack + [top], wanted) == StackSum(stack, wanted).Plus(Sum(top, wanted))
    ensures StackWeight(stack + [top]) == StackWeight(stack) + Weight(top)
  {
    assert (stack + [top])[..|stack|] == stack;
  }

  /** One directory's scan: files are added up, directories put on the stack. */
  method Scan(listing: Entries, before: seq<Entries>, sofar: Totals, wanted: Option<set<string>>)
      returns (totals: Totals, stack: seq<Entries>)
    ensures totals.Plus(StackSum(stack, wanted)) == sofar.Plus(StackSum(before, wanted)).Plus(Sum(listing, wanted))
    ensures StackWeight(stack) < StackWeight(before) + Weight(listing)
  {
    totals, stack := sofar, before;
    var it := listing;
    ghost var goal := sofar.Plus(StackSum(before, wanted)).Plus(Sum(listing, wanted));
    while it.Entry?
      invariant totals.Plus(StackSum(stack, wanted)).Plus(Sum(it, wanted)) == goal
      invariant StackWeight(stack) + Weight(it) <= StackWeight(before) + Weight(listing)
      decreases it
    {
      var entry := it.first;
      if entry.Directory? {
        Push(stack, entry.entries, wanted);
        stack := stack + [entry.entries];
      } else {
        totals := totals.Plus(OfFile(entry, wanted));
      }
      it := it.rest;
    }
  }

  /** `directory_size`: the walk with a stack adds up to the recursive sum. */
  method DirectorySize(root: Entries, wanted: Option<set<string>>) returns (totals: Totals)
    ensures totals == Sum(root, wanted)
  {
    totals := NOTHING;
    var stack: seq<Entries> := [root];
    Push([], root, wanted);
    assert [] + [root] == stack;
    while stack != []
      invariant totals.Plus(StackSum(stack, wanted)) == Sum(root, wanted)
      decreases StackWeight(stack)
    {
      var (current, below) := (stack[|stack| - 1], stack[..|stack| - 1]);
      assert below + [current] == stack;
      Push(below, current, wanted);
      totals, stack := Scan(current, below, totals, wanted);
    }
  }

  // ----- What the sum leaves out --------------------------------------------------------

  /** The tree with every link cut off. */
  function Unlinked(entries: Entries): Entries {
    match entries
    case Nil => Nil
    case Entry(first, rest) =>
      if first.Link? then Unlinked(rest)
      else if first.Directory? then Entry(Directory(Unlinked(first.entries)), Unlinked(rest))
      else Entry(first, Unlinked(rest))
  }

  lemma SumOfEntry(first: Node, rest: Entries, wanted: Option<set<string>>)
    ensures first.Directory? ==>
              Sum(Entry(first, rest), wanted) == Sum(first.entries, wanted).Plus(Sum(rest, wanted))
    ensures !first.Directory? ==> Sum(Entry(first, rest), wanted) == OfFile(first, wanted).Plus(Sum(rest, wanted))
  {
  }

  /** No link ever contributes, wherever it is and whatever it points at. */
  lemma {:induction false} LinksNeverCount(entries: Entries, wanted: Option<set<string>>)
    ensures Sum(Unlinked(entries), wanted) == Sum(entries, wanted)
  {
    match entries
    case Nil =>
    case Entry(first, rest) =>
      LinksNeverCount(rest, wanted);
      SumOfEntry(first, rest, wanted);
      if first.Directory? {
        LinksNeverCount(first.entries, wanted);
        SumOfEntry(Directory(Unlinked(first.entries)), Unlinked(rest), wanted);
      } else if !first.Link? {
        SumOfEntry(first, Unlinked(rest), wanted);
      }
  }

  predicate Widens(narrow: Option<set<string>>, wide: Option<set<string>>) {
    wide.None? || (narrow.Some? && narrow.value <= wide.value)
  }

  predicate AtMost(a: Totals, b: Totals) {
    a.bytes <= b.bytes && a.files <= b.files
  }

  lemma WiderFileCountsMore(node: Node, narrow: Option<set<string>>, wide: Option<set<string>>)
    requires Widens(narrow, wide)
    ensures AtMost(OfFile(node, narrow), OfFile(node, wide))
  {
  }

  /** A filter never counts more than no filter, nor a smaller one more than a larger. */
  lemma {:induction false} WiderFilterCountsMore(entries: Entries, narrow: Option<set<string>>, wide: Option<set<string>>)
    requires Widens(narrow, wide)
    ensures AtMost(Sum(entries, narrow), Sum(entries, wide))
  {
    match entries
    case Nil =>
    case Entry(first, rest) =>
      WiderFilterCountsMore(rest, narrow, wide);
      SumOfEntry(first, rest, narrow);
      SumOfEntry(first, rest, wide);
      if first.Directory? {
        WiderFilterCountsMore(first.entries, narrow, wide);
      } else {
        WiderFileCountsMore(first, narrow, wide);
      }
  }

  /** A file adds its bytes and one file when its extension is wanted and its size can be told; nothing else
      adds anything of its own, and a directory adds what is in it. */
  lemma EntryAdds(first: Node, rest: Entries, wanted: Option<set<string>>)
    ensures var (all, others) := (Sum(Entry(first, rest), wanted), Sum(rest, wanted));
            if first.Directory? then
              && all.bytes == Sum(first.entries, wanted).bytes + others.bytes
              && all.files == Sum(first.entries, wanted).files + others.files
            else if first.File? && first.size != None && (wanted == None || first.extension in wanted.value) then
              all.bytes == others.bytes + first.size.value && all.files == others.files + 1
            else all == others
  {
    hide Sum;
    SumOfEntry(first, rest, wanted);
  }
}
