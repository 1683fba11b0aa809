/** Grouping bots by correlation with a path-halving union-find, proved to compute exactly
    the connected components of the graph of strongly correlated pairs. */
module CorrelationGroups {
  import opened Options
  import opened Reals
  import opened Texts

  type Name = string

  // ---------------------------------------------------------------- keys

  /** A correlation key is a tuple of names, or one text naming both sides. */
  datatype Key = Tuple(parts: seq<Name>) | Text(text: string)

  datatype Entry = Entry(key: Key, value: real)

  /** The first position of c in s, or |s|. */
  function IndexOf(s: string, c: char): (at: nat)
    ensures at <= |s|
    ensures at < |s| ==> s[at] == c
    ensures c !in s[..at]
  {
    if |s| == 0 || s[0] == c then 0 else
    var rest := IndexOf(s[1..], c);
    assert s[..rest + 1] == [s[0]] + s[1..][..rest];
    rest + 1
  }

  /** Split a text at the first occurrence of one separator, if both sides are named. */
  function SplitAt(s: string, separator: char): Option<(Name, Name)> {
    var at := IndexOf(s, separator);
    if at == |s| then None else
    var left, right := Strip(s[..at]), Strip(s[at + 1..]);
    if |left| > 0 && |right| > 0 then Some((left, right)) else None
  }

  function ParsePair(key: Key): Option<(Name, Name)> {
    match key
    case Tuple(parts) => if |parts| == 2 then Some((parts[0], parts[1])) else None
    case Text(s) =>
      var bar := SplitAt(s, '|');
      if bar.Some? then bar else
      var colon := SplitAt(s, ':');
      if colon.Some? then colon else SplitAt(s, ',')
  }

  /** A name that survives being written into a key: not empty, no space at either end. */
  predicate Clean(s: Name) {
    |s| > 0 && !IsSpace(s[0]) && !IsSpace(s[|s| - 1])
  }

  lemma {:induction false} CleanStrips(s: Name)
    requires Clean(s)
    ensures Strip(s) == s
  {
    assert StripLeft(s) == s;
  }

  lemma {:induction false} FirstAt(left: string, c: char, right: string)
    requires c !in left
    ensures IndexOf(left + [c] + right, c) == |left|
  {
    var s := left + [c] + right;
    var at := IndexOf(s, c);
    assert s[|left|] == c;
  }

  /** Writing two clean names around a bar and parsing them back gives the names, provided
      the left one has no bar of its own. */
  lemma {:induction false} ParseRoundTrip(left: Name, right: Name)
    requires Clean(left) && Clean(right) && '|' !in left
    ensures ParsePair(Text(left + "|" + right)) == Some((left, right))
  {
    hide IndexOf, Strip, Clean;
    var s := left + "|" + right;
    assert s == left + ['|'] + right;
    FirstAt(left, '|', right);
    CleanStrips(left);
    CleanStrips(right);
    assert s[..|left|] == left;
    assert s[|left| + 1..] == right;
    CleanNonempty(left);
    CleanNonempty(right);
  }

  /** One separator splits a text at its first occurrence into two sides, neither blank. */
  ghost predicate Splits(s: string, separator: char, pair: (Name, Name)) {
    exists left, right ::
      && s == left + [separator] + right && separator !in left
      && !Blank(left) && !Blank(right) && pair == (Strip(left), Strip(right))
  }

  lemma {:induction false} SplitAtIff(s: string, separator: char, pair: (Name, Name))
    ensures SplitAt(s, separator) == Some(pair) <==> Splits(s, separator, pair)
  {
    hide IndexOf, Strip, Blank;
    var at := IndexOf(s, separator);
    if at < |s| {
      var left, right := s[..at], s[at + 1..];
      assert s == left + [separator] + right;
      var _, _ := StripCuts(left);
      var _, _ := StripCuts(right);
    }
    if Splits(s, separator, pair) {
      var left, right :| s == left + [separator] + right && separator !in left
                         && !Blank(left) && !Blank(right) && pair == (Strip(left), Strip(right));
      FirstAt(left, separator, right);
      assert s[..at] == left && s[at + 1..] == right;
    }
  }

  /** A text names a pair if and only if a bar splits it into that pair, or no bar splits it and
      a colon does, or neither splits it and a comma does; a tuple must have two parts. */
  lemma {:induction false} ParsesIff(key: Key, pair: (Name, Name))
    ensures ParsePair(key) == Some(pair) <==>
              match key
              case Tuple(parts) => parts == [pair.0] + [pair.1]
              case Text(s) =>
                || Splits(s, '|', pair)
                || ((forall other :: !Splits(s, '|', other)) && Splits(s, ':', pair))
                || ((forall other :: !Splits(s, '|', other) && !Splits(s, ':', other)) && Splits(s, ',', pair))
  {
    hide Splits, SplitAt;
    if key.Text? {
      forall other ensures (SplitAt(key.text, '|') == Some(other) <==> Splits(key.text, '|', other))
        && (SplitAt(key.text, ':') == Some(other) <==> Splits(key.text, ':', other))
      {
        SplitAtIff(key.text, '|', other);
        SplitAtIff(key.text, ':', other);
      }
      SplitAtIff(key.text, ',', pair);
      NoneOrSome(SplitAt(key.text, '|'));
      NoneOrSome(SplitAt(key.text, ':'));
    } else {
      assert |key.parts| == 2 ==> key.parts == [key.parts[0]] + [key.parts[1]];
    }
  }

  lemma {:induction false} NoneOrSome(o: Option<(Name, Name)>)
    ensures o == None || exists pair :: o == Some(pair)
  {
    if o.Some? {
      assert o == Some(o.value);
    }
  }

  lemma {:induction false} CleanNonempty(s: Name)
    requires Clean(s)
    ensures |s| > 0
  {
  }

  // ---------------------------------------------------------------- the graph

  /** The pair an entry links, if it is parsed, known and strong enough. */
  function ActivePair(known: set<Name>, e: Entry, threshold: real): Option<(Name, Name)> {
    match ParsePair(e.key)
    case None => None
    case Some(pair) => if pair.0 in known && pair.1 in known && Abs(e.value) >= threshold then Some(pair) else None
  }

  ghost function Edges(known: set<Name>, entries: seq<Entry>, threshold: real): set<(Name, Name)> {
    set i | 0 <= i < |entries| && ActivePair(known, entries[i], threshold).Some?
      :: ActivePair(known, entries[i], threshold).value
  }

  ghost predicate Adjacent(edges: set<(Name, Name)>, a: Name, b: Name) {
    (a, b) in edges || (b, a) in edges
  }

  ghost predicate IsChain(edges: set<(Name, Name)>, p: seq<Name>) {
    |p| > 0 && forall i :: 0 < i < |p| ==> Adjacent(edges, p[i - 1], p[i])
  }

  /** A chain of active pairs leads from a to b. */
  ghost predicate Linked(edges: set<(Name, Name)>, a: Name, b: Name) {
    exists p :: IsChain(edges, p) && p[0] == a && p[|p| - 1] == b
  }

  lemma {:induction false} LinkedSelf(edges: set<(Name, Name)>, a: Name)
    ensures Linked(edges, a, a)
  {
    assert IsChain(edges, [a]);
  }

  lemma {:induction false} LinkedJoin(edges: set<(Name, Name)>, a: Name, b: Name, c: Name, d: Name)
    requires Linked(edges, a, b) && Adjacent(edges, b, c) && Linked(edges, c, d)
    ensures Linked(edges, a, d)
  {
    var p :| IsChain(edges, p) && p[0] == a && p[|p| - 1] == b;
    var q :| IsChain(edges, q) && q[0] == c && q[|q| - 1] == d;
    assert IsChain(edges, p + q);
  }

  lemma {:induction false} LinkedMonotone(edges: set<(Name, Name)>, more: set<(Name, Name)>, a: Name, b: Name)
    requires Linked(edges, a, b) && edges <= more
    ensures Linked(more, a, b)
  {
    var p :| IsChain(edges, p) && p[0] == a && p[|p| - 1] == b;
    assert IsChain(more, p);
  }

  /** A labelling that never changes across an edge is constant along every chain. */
  lemma {:induction false} ChainKeepsLabel(edges: set<(Name, Name)>, tag: map<Name, Name>, p: seq<Name>)
    requires IsChain(edges, p) && p[0] in tag
    requires forall e :: e in edges ==> e.0 in tag && e.1 in tag && tag[e.0] == tag[e.1]
    ensures forall i :: 0 <= i < |p| ==> p[i] in tag && tag[p[i]] == tag[p[0]]
  {
    if |p| > 1 {
      var q := p[..|p| - 1];
      assert IsChain(edges, q);
      ChainKeepsLabel(edges, tag, q);
      assert Adjacent(edges, p[|p| - 2], p[|p| - 1]);
      assert q[|p| - 2] == p[|p| - 2];
    }
  }

  /** tag names the components of the graph on its keys. */
  ghost predicate LabelsComponents(edges: set<(Name, Name)>, tag: map<Name, Name>) {
    && (forall e :: e in edges ==> e.0 in tag && e.1 in tag && tag[e.0] == tag[e.1])
    && (forall a, b :: a in tag && b in tag && tag[a] == tag[b] ==> Linked(edges, a, b))
  }

  lemma {:induction false} LabelsAreExact(edges: set<(Name, Name)>, tag: map<Name, Name>, a: Name, b: Name)
    requires LabelsComponents(edges, tag) && a in tag && b in tag
    ensures tag[a] == tag[b] <==> Linked(edges, a, b)
  {
    if Linked(edges, a, b) {
      var p :| IsChain(edges, p) && p[0] == a && p[|p| - 1] == b;
      ChainKeepsLabel(edges, tag, p);
    }
  }

  ghost function Merge(tag: map<Name, Name>, keep: Name, drop: Name): map<Name, Name> {
    map x | x in tag :: if tag[x] == drop then keep else tag[x]
  }

  /** Adding one edge and merging the labels of its ends keeps the labels exact. */
  lemma {:induction false} MergeLabels(edges: set<(Name, Name)>, tag: map<Name, Name>, l: Name, r: Name)
    requires LabelsComponents(edges, tag) && l in tag && r in tag
    ensures LabelsComponents(edges + {(l, r)}, Merge(tag, tag[l], tag[r]))
  {
    var more, merged := edges + {(l, r)}, Merge(tag, tag[l], tag[r]);
    forall a, b | a in merged && b in merged && merged[a] == merged[b] ensures Linked(more, a, b) {
      if tag[a] == tag[b] {
        LinkedMonotone(edges, more, a, b);
      } else if tag[a] == tag[r] {
        LinkedMonotone(edges, more, a, r);
        LinkedMonotone(edges, more, l, b);
        LinkedJoin(more, a, r, l, b);
      } else {
        LinkedMonotone(edges, more, a, l);
        LinkedMonotone(edges, more, r, b);
        LinkedJoin(more, a, l, r, b);
      }
    }
  }

  // ---------------------------------------------------------------- union-find

  /** x's parent has x's representative and, unless x is a root, a greater height. */
  ghost predicate NodeOk(parent: map<Name, Name>, root: map<Name, Name>, height: map<Name, nat>, x: Name)
    requires parent.Keys == root.Keys == height.Keys && x in parent
  {
    && parent[x] in parent && root[x] in parent
    && root[parent[x]] == root[x] && root[root[x]] == root[x]
    && (parent[x] == x ==> root[x] == x)
    && (parent[x] != x ==> height[x] < height[parent[x]])
  }

  ghost predicate Forest(parent: map<Name, Name>, root: map<Name, Name>, height: map<Name, nat>) {
    && parent.Keys == root.Keys == height.Keys
    && forall x {:trigger NodeOk(parent, root, height, x)} :: x in parent ==> NodeOk(parent, root, height, x)
  }

  /** Pointing a name at its grandparent keeps the forest and every representative. */
  lemma {:induction false} HalvingKeepsForest(parent: map<Name, Name>, root: map<Name, Name>, height: map<Name, nat>,
                                              x: Name)
    requires Forest(parent, root, height) && x in parent && parent[x] != x
    ensures parent[x] in parent && parent[parent[x]] in parent
    ensures var p := parent[parent[x]];
            Forest(parent[x := p], root, height) && root[p] == root[x] && height[x] < height[p]
  {
    assert NodeOk(parent, root, height, x);
    assert NodeOk(parent, root, height, parent[x]);
    var halved := parent[x := parent[parent[x]]];
    forall y | y in halved ensures NodeOk(halved, root, height, y) {
      assert NodeOk(parent, root, height, y);
    }
  }

  /** Hanging one root under another merges exactly their two components. */
  lemma {:induction false} LinkingKeepsForest(parent: map<Name, Name>, root: map<Name, Name>, height: map<Name, nat>,
                                              keep: Name, drop: Name)
    requires Forest(parent, root, height) && keep in parent && drop in parent
    requires parent[keep] == keep && parent[drop] == drop && keep != drop
    ensures Forest(parent[drop := keep], Merge(root, keep, drop), height[keep := height[keep] + height[drop] + 1])
  {
    var linked, merged, taller := parent[drop := keep], Merge(root, keep, drop),
        height[keep := height[keep] + height[drop] + 1];
    assert NodeOk(parent, root, height, keep) && NodeOk(parent, root, height, drop);
    forall y | y in linked ensures NodeOk(linked, merged, taller, y) {
      assert NodeOk(parent, root, height, y);
    }
  }

  ghost function Higher(height: map<Name, nat>, name: Name): set<Name>
    requires name in height
  {
    set x | x in height && height[x] > height[name]
  }

  lemma {:induction false} HigherShrinks(height: map<Name, nat>, was: Name, name: Name)
    requires was in height && name in height && height[was] < height[name]
    ensures Higher(height, name) < Higher(height, was)
  {
    assert name in Higher(height, was) && name !in Higher(height, name);
  }

  class UnionFind {
    var parent: map<Name, Name>
    /** The representative of every name, and a height that grows towards it. */
    ghost var root: map<Name, Name>
    ghost var height: map<Name, nat>

    ghost predicate Valid()
      reads this
    {
      Forest(parent, root, height)
    }

    constructor (names: set<Name>)
      ensures Valid() && parent.Keys == names && root == map x | x in names :: x
    {
      parent := map x | x in names :: x;
      root := map x | x in names :: x;
      height := map x | x in names :: 0;
    }

    /** Walk to the representative, pointing every other name visited at its grandparent. */
    method Find(start: Name) returns (name: Name)
      requires Valid() && start in parent
      modifies this`parent
      ensures Valid() && parent.Keys == old(parent.Keys)
      ensures name in parent && start in root && name == root[start] && parent[name] == name
      ensures forall x :: x in old(parent) && old(parent)[x] == x ==> parent[x] == x
    {
      hide Forest;
      name := start;
      ForestKeys(parent, root, height);
      while parent[name] != name
        invariant Forest(parent, root, height) && parent.Keys == root.Keys == height.Keys == old(parent.Keys)
        invariant name in parent && root[name] == root[start]
        invariant forall x :: x in old(parent) && old(parent)[x] == x ==> parent[x] == x
        decreases Higher(height, name)
      {
        HalvingKeepsForest(parent, root, height, name);
        ghost var was := name;
        parent := parent[name := parent[parent[name]]];
        name := parent[name];
        HigherShrinks(height, was, name);
      }
      RootIsItself(parent, root, height, name);
    }

    /** Join the components of two names under the left one's representative. */
    method Union(left: Name, right: Name)
      requires Valid() && left in parent && right in parent
      modifies this
      ensures Valid() && parent.Keys == old(parent.Keys)
      ensures old(left in root && right in root) && root == Merge(old(root), old(root)[left], old(root)[right])
    {
      hide Forest, Merge, NodeOk;
      var rootLeft := Find(left);
      var rootRight := Find(right);
      ForestKeys(parent, root, height);
      if rootLeft != rootRight {
        LinkingKeepsForest(parent, root, height, rootLeft, rootRight);
        parent := parent[rootRight := rootLeft];
        height := height[rootLeft := height[rootLeft] + height[rootRight] + 1];
        root := Merge(root, rootLeft, rootRight);
      } else {
        MergeSame(root, rootLeft);
      }
    }
  }

  lemma {:induction false} MergeSame(root: map<Name, Name>, r: Name)
    ensures Merge(root, r, r) == root
  {
  }

  lemma {:induction false} ForestKeys(parent: map<Name, Name>, root: map<Name, Name>, height: map<Name, nat>)
    requires Forest(parent, root, height)
    ensures parent.Keys == root.Keys == height.Keys
  {
  }

  lemma {:induction false} RootIsItself(parent: map<Name, Name>, root: map<Name, Name>, height: map<Name, nat>, x: Name)
    requires Forest(parent, root, height) && x in parent && parent[x] == x
    ensures x in root && root[x] == x
  {
    assert NodeOk(parent, root, height, x);
  }

  // ---------------------------------------------------------------- grouping

  /** Everything linked to a, itself included. */
  ghost function Component(known: set<Name>, edges: set<(Name, Name)>, a: Name): set<Name> {
    set b | b in known && Linked(edges, a, b)
  }

  function NamesIn(names: seq<Name>): set<Name> {
    set x | x in names
  }

  /** Map each name to its correlation group: exactly the names linked to it by a chain of
      known pairs at or above the threshold. */
  /** The entry names these two, in either order, and its correlation is strong in either
      direction. */
  ghost predicate Ties(e: Entry, a: Name, b: Name, threshold: real) {
    && (ParsePair(e.key) == Some((a, b)) || ParsePair(e.key) == Some((b, a)))
    && (e.value >= threshold || -e.value >= threshold)
  }

  /** Known names, each tied to the next by some entry. */
  ghost predicate TiedChain(known: set<Name>, entries: seq<Entry>, threshold: real, p: seq<Name>) {
    && |p| > 0 && (forall i :: 0 <= i < |p| ==> p[i] in known)
    && forall i :: 0 < i < |p| ==> SomeTies(entries, p[i - 1], p[i], threshold)
  }

  ghost predicate SomeTies(entries: seq<Entry>, a: Name, b: Name, threshold: real) {
    exists k :: 0 <= k < |entries| && Ties(entries[k], a, b, threshold)
  }

  ghost predicate Together(known: set<Name>, entries: seq<Entry>, threshold: real, a: Name, b: Name) {
    exists p :: TiedChain(known, entries, threshold, p) && p[0] == a && p[|p| - 1] == b
  }

  lemma {:induction false} AdjacentIff(known: set<Name>, entries: seq<Entry>, threshold: real, a: Name, b: Name)
    ensures Adjacent(Edges(known, entries, threshold), a, b)
            <==> a in known && b in known && SomeTies(entries, a, b, threshold)
  {
    hide ParsePair;
    var edges := Edges(known, entries, threshold);
    forall x, y
      ensures (x, y) in edges
              <==> exists k :: 0 <= k < |entries| && ActivePair(known, entries[k], threshold) == Some((x, y))
    {
    }
    if Adjacent(edges, a, b) {
      var x, y := if (a, b) in edges then a else b, if (a, b) in edges then b else a;
      var k :| 0 <= k < |entries| && ActivePair(known, entries[k], threshold) == Some((x, y));
      assert Ties(entries[k], a, b, threshold);
    }
    if a in known && b in known && SomeTies(entries, a, b, threshold) {
      var k :| 0 <= k < |entries| && Ties(entries[k], a, b, threshold);
      assert ActivePair(known, entries[k], threshold) == ParsePair(entries[k].key);
    }
  }

  /** Two known names are in one group if and only if a chain of entries ties them. */
  lemma {:induction false} GroupedIff(known: set<Name>, entries: seq<Entry>, threshold: real, a: Name, b: Name)
    requires a in known
    ensures b in Component(known, Edges(known, entries, threshold), a) <==> Together(known, entries, threshold, a, b)
  {
    hide Edges, SomeTies;
    var edges := Edges(known, entries, threshold);
    forall x, y ensures Adjacent(edges, x, y) <==> x in known && y in known && SomeTies(entries, x, y, threshold) {
      AdjacentIff(known, entries, threshold, x, y);
    }
    hide Adjacent;
    if b in Component(known, edges, a) {
      var p :| IsChain(edges, p) && p[0] == a && p[|p| - 1] == b;
      forall i | 0 <= i < |p| ensures p[i] in known {
        assert i > 0 ==> Adjacent(edges, p[i - 1], p[i]);
      }
      assert TiedChain(known, entries, threshold, p);
    }
    if Together(known, entries, threshold, a, b) {
      var p :| TiedChain(known, entries, threshold, p) && p[0] == a && p[|p| - 1] == b;
      assert IsChain(edges, p);
    }
  }

  function Opposed(entries: seq<Entry>): (r: seq<Entry>)
    ensures |r| == |entries| && forall i :: 0 <= i < |r| ==> r[i] == Entry(entries[i].key, -entries[i].value)
  {
    seq(|entries|, i requires 0 <= i < |entries| => Entry(entries[i].key, -entries[i].value))
  }

  /** Only the strength of a correlation counts, not its sign. */
  lemma {:induction false} SignDoesNotMatter(known: set<Name>, entries: seq<Entry>, threshold: real, a: Name)
    requires a in known
    ensures Component(known, Edges(known, Opposed(entries), threshold), a)
            == Component(known, Edges(known, entries, threshold), a)
  {
    hide ParsePair, Edges, Component;
    forall x, y ensures SomeTies(Opposed(entries), x, y, threshold) <==> SomeTies(entries, x, y, threshold) {
      forall k | 0 <= k < |entries|
        ensures Ties(Opposed(entries)[k], x, y, threshold) <==> Ties(entries[k], x, y, threshold)
      {
      }
    }
    hide SomeTies;
    forall b ensures b in Component(known, Edges(known, Opposed(entries), threshold), a)
                     <==> b in Component(known, Edges(known, entries, threshold), a)
    {
      GroupedIff(known, Opposed(entries), threshold, a, b);
      GroupedIff(known, entries, threshold, a, b);
      TogetherSame(known, Opposed(entries), entries, threshold, a, b);
    }
  }

  lemma {:induction false} TogetherSame(known: set<Name>, these: seq<Entry>, those: seq<Entry>, threshold: real,
                                        a: Name, b: Name)
    requires forall x, y :: SomeTies(these, x, y, threshold) <==> SomeTies(those, x, y, threshold)
    ensures Together(known, these, threshold, a, b) <==> Together(known, those, threshold, a, b)
  {
    hide SomeTies;
    if Together(known, these, threshold, a, b) {
      var p :| TiedChain(known, these, threshold, p) && p[0] == a && p[|p| - 1] == b;
      assert TiedChain(known, those, threshold, p);
    }
    if Together(known, those, threshold, a, b) {
      var p :| TiedChain(known, those, threshold, p) && p[0] == a && p[|p| - 1] == b;
      assert TiedChain(known, these, threshold, p);
    }
  }

  method CorrelationGroupByName(names: seq<Name>, entries: seq<Entry>, threshold: real)
      returns (groups: map<Name, set<Name>>)
    ensures groups.Keys == NamesIn(names)
    ensures forall a :: a in groups ==>
      groups[a] == Component(NamesIn(names), Edges(NamesIn(names), entries, threshold), a)
    ensures forall a, b :: a in groups ==> (b in groups[a] <==> Together(NamesIn(names), entries, threshold, a, b))
  {
    hide Edges, LabelsComponents, ActivePair, Component, Forest, Merge, Together;
    var known := NamesIn(names);
    var uf := new UnionFind(known);
    IdentityLabels(known, uf.root, entries, threshold);
    for i := 0 to |entries|
      invariant uf.Valid() && uf.parent.Keys == known
      invariant LabelsComponents(Edges(known, entries[..i], threshold), uf.root)
      invariant fresh(uf)
    {
      var active := ActivePair(known, entries[i], threshold);
      EdgesStep(known, entries, threshold, i);
      ForestKeys(uf.parent, uf.root, uf.height);
      match active
      case None =>
        assert Edges(known, entries[..i + 1], threshold) == Edges(known, entries[..i], threshold);
      case Some(pair) =>
        assert pair == (pair.0, pair.1);
        ActiveIsKnown(known, entries[i], threshold);
        MergeLabels(Edges(known, entries[..i], threshold), uf.root, pair.0, pair.1);
        uf.Union(pair.0, pair.1);
    }
    assert entries[..|entries|] == entries;
    groups := CollectGroups(uf, names, known, Edges(known, entries, threshold));
    forall a, b | a in groups ensures b in groups[a] <==> Together(known, entries, threshold, a, b) {
      GroupedIff(known, entries, threshold, a, b);
    }
  }

  lemma {:induction false} IdentityLabels(known: set<Name>, root: map<Name, Name>, entries: seq<Entry>, threshold: real)
    requires root == map x | x in known :: x
    ensures LabelsComponents(Edges(known, entries[..0], threshold), root)
  {
    assert Edges(known, entries[..0], threshold) == {};
    forall a ensures Linked({}, a, a) {
      LinkedSelf({}, a);
    }
  }

  lemma {:induction false} ActiveIsKnown(known: set<Name>, e: Entry, threshold: real)
    requires ActivePair(known, e, threshold).Some?
    ensures ActivePair(known, e, threshold).value.0 in known && ActivePair(known, e, threshold).value.1 in known
  {
  }

  lemma {:induction false} EdgesStep(known: set<Name>, entries: seq<Entry>, threshold: real, i: nat)
    requires i < |entries|
    ensures var pair := ActivePair(known, entries[i], threshold);
            Edges(known, entries[..i + 1], threshold)
            == Edges(known, entries[..i], threshold) + if pair.Some? then {pair.value} else {}
  {
    var before, after := entries[..i], entries[..i + 1];
    assert forall l :: 0 <= l < i ==> before[l] == after[l] == entries[l];
    assert after[i] == entries[i];
  }

  /** The first l names that share representative r. */
  ghost function Members(names: seq<Name>, root: map<Name, Name>, r: Name): set<Name>
    requires forall x :: x in names ==> x in root
  {
    set x | x in names && root[x] == r
  }

  /** The buckets after reading the given names: one per representative met. */
  ghost predicate Buckets(names: seq<Name>, root: map<Name, Name>, grouped: map<Name, set<Name>>)
    requires forall x :: x in names ==> x in root
  {
    && (forall x :: x in names ==> root[x] in grouped)
    && (forall r :: r in grouped ==> grouped[r] == Members(names, root, r))
  }

  lemma {:induction false} BucketsStep(names: seq<Name>, root: map<Name, Name>, grouped: map<Name, set<Name>>,
                                       name: Name)
    requires (forall x :: x in names ==> x in root) && name in root && Buckets(names, root, grouped)
    ensures forall x :: x in names + [name] ==> x in root
    ensures var r := root[name];
            Buckets(names + [name], root, grouped[r := (if r in grouped then grouped[r] else {}) + {name}])
  {
    var r, more := root[name], names + [name];
    var next := grouped[r := (if r in grouped then grouped[r] else {}) + {name}];
    forall q | q in next ensures next[q] == Members(more, root, q) {
      assert forall x :: x in more <==> x in names || x == name;
    }
  }

  lemma {:induction false} BucketIsComponent(names: seq<Name>, root: map<Name, Name>, grouped: map<Name, set<Name>>,
                                             edges: set<(Name, Name)>, a: Name)
    requires root.Keys == NamesIn(names) && LabelsComponents(edges, root) && a in names
    requires Buckets(names, root, grouped)
    ensures root[a] in grouped && grouped[root[a]] == Component(NamesIn(names), edges, a)
  {
    hide LabelsComponents, Linked;
    forall b | b in names ensures root[b] == root[a] <==> Linked(edges, a, b) {
      LabelsAreExact(edges, root, a, b);
    }
  }

  method CollectGroups(uf: UnionFind, names: seq<Name>, ghost known: set<Name>, ghost edges: set<(Name, Name)>)
      returns (groups: map<Name, set<Name>>)
    requires uf.Valid() && uf.parent.Keys == known == NamesIn(names) && LabelsComponents(edges, uf.root)
    modifies uf`parent
    ensures groups.Keys == known
    ensures forall a :: a in groups ==> groups[a] == Component(known, edges, a)
  {
    hide LabelsComponents, Component, Forest, Buckets;
    ForestKeys(uf.parent, uf.root, uf.height);
    var grouped := FillBuckets(uf, names);
    groups := map[];
    for i := 0 to |names|
      invariant uf.Valid() && uf.parent.Keys == known
      invariant groups.Keys == NamesIn(names[..i])
      invariant forall a :: a in groups ==> groups[a] == Component(known, edges, a)
    {
      assert names[i] in NamesIn(names);
      var r := uf.Find(names[i]);
      BucketIsComponent(names, uf.root, grouped, edges, names[i]);
      assert names[..i + 1] == names[..i] + [names[i]];
      groups := groups[names[i] := grouped[r]];
    }
    assert names[..|names|] == names;
  }

  method FillBuckets(uf: UnionFind, names: seq<Name>) returns (grouped: map<Name, set<Name>>)
    requires uf.Valid() && uf.parent.Keys == uf.root.Keys == NamesIn(names)
    modifies uf`parent
    ensures uf.Valid() && uf.parent.Keys == old(uf.parent.Keys)
    ensures Buckets(names, uf.root, grouped)
  {
    hide Forest, Buckets;
    grouped := map[];
    NoBuckets(uf.root);
    for i := 0 to |names|
      invariant uf.Valid() && uf.parent.Keys == NamesIn(names)
      invariant Buckets(names[..i], uf.root, grouped)
    {
      assert names[i] in NamesIn(names);
      var r := uf.Find(names[i]);
      BucketsStep(names[..i], uf.root, grouped, names[i]);
      assert names[..i + 1] == names[..i] + [names[i]];
      var members := if r in grouped then grouped[r] else {};
      grouped := grouped[r := members + {names[i]}];
    }
    assert names[..|names|] == names;
  }

  lemma {:induction false} NoBuckets(root: map<Name, Name>)
    ensures Buckets([], root, map[])
  {
  }

  // ---------------------------------------------------------------- consequences

  lemma {:induction false} LinkedReverse(edges: set<(Name, Name)>, p: seq<Name>)
    requires IsChain(edges, p)
    ensures Linked(edges, p[|p| - 1], p[0])
  {
    var q := seq(|p|, i requires 0 <= i < |p| => p[|p| - 1 - i]);
    forall i | 0 < i < |q| ensures Adjacent(edges, q[i - 1], q[i]) {
      assert Adjacent(edges, p[|p| - 1 - i], p[|p| - i]);
    }
    assert IsChain(edges, q);
  }

  lemma {:induction false} LinkedTransitive(edges: set<(Name, Name)>, a: Name, b: Name, c: Name)
    requires Linked(edges, a, b) && Linked(edges, b, c)
    ensures Linked(edges, a, c)
  {
    var p :| IsChain(edges, p) && p[0] == a && p[|p| - 1] == b;
    var q :| IsChain(edges, q) && q[0] == b && q[|q| - 1] == c;
    if |q| == 1 {
    } else {
      var r := p + q[1..];
      forall i | 0 < i < |r| ensures Adjacent(edges, r[i - 1], r[i]) {
        if i >= |p| {
          assert r[i] == q[i - |p| + 1] && r[i - 1] == q[i - |p|];
        }
      }
      assert IsChain(edges, r);
    }
  }

  /** The groups partition the names: everyone is in its own group, and two groups are
      either the same or disjoint. */
  lemma {:induction false} GroupsPartition(known: set<Name>, edges: set<(Name, Name)>, a: Name, b: Name)
    requires a in known && b in known
    ensures a in Component(known, edges, a)
    ensures b in Component(known, edges, a) ==> Component(known, edges, a) == Component(known, edges, b)
    ensures b !in Component(known, edges, a) ==> Component(known, edges, a) !! Component(known, edges, b)
  {
    LinkedSelf(edges, a);
    forall x, y | Linked(edges, x, y) ensures Linked(edges, y, x) {
      var p :| IsChain(edges, p) && p[0] == x && p[|p| - 1] == y;
      LinkedReverse(edges, p);
    }
    forall x, y, z | Linked(edges, x, y) && Linked(edges, y, z) ensures Linked(edges, x, z) {
      LinkedTransitive(edges, x, y, z);
    }
  }

  /** Reading the correlations in another order gives the same groups. */
  lemma {:induction false} OrderDoesNotMatter(known: set<Name>, entries: seq<Entry>, shuffled: seq<Entry>,
                                              threshold: real, a: Name)
    requires multiset(entries) == multiset(shuffled)
    ensures Component(known, Edges(known, entries, threshold), a)
            == Component(known, Edges(known, shuffled, threshold), a)
  {
    EdgesSubset(known, entries, shuffled, threshold);
    EdgesSubset(known, shuffled, entries, threshold);
  }

  lemma {:induction false} EdgesSubset(known: set<Name>, entries: seq<Entry>, shuffled: seq<Entry>, threshold: real)
    requires multiset(entries) == multiset(shuffled)
    ensures Edges(known, entries, threshold) <= Edges(known, shuffled, threshold)
  {
    forall i | 0 <= i < |entries| && ActivePair(known, entries[i], threshold).Some?
      ensures ActivePair(known, entries[i], threshold).value in Edges(known, shuffled, threshold)
    {
      assert entries[i] in multiset(shuffled);
      var j :| 0 <= j < |shuffled| && shuffled[j] == entries[i];
    }
  }
}
