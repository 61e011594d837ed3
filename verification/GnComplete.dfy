/** Completion of partial GN labels: a trie of label segments, and the completions cut off at the
    first place where the inserted labels differ. */
module GnComplete {

  import opened GnLabels

  type Segments = seq<string>

  /** The nested dictionaries. */
  datatype Trie = Trie(children: map<string, Trie>)

  // ------------------------------------------------------------------ the trie

  ghost predicate Has(t: Trie, path: Segments)
    decreases |path|
  {
    path == [] || (path[0] in t.children && Has(t.children[path[0]], path[1..]))
  }

  function Insert(t: Trie, path: Segments): Trie
    decreases |path|
  {
    if path == [] then t
    else
      var child := if path[0] in t.children then t.children[path[0]] else Trie(map[]);
      Trie(t.children[path[0] := Insert(child, path[1..])])
  }

  /** Inserting a path adds its prefixes and nothing else. */
  lemma {:induction false} InsertHas(t: Trie, path: Segments, p: Segments)
    ensures Has(Insert(t, path), p) <==> Has(t, p) || p <= path
    decreases |path|
  {
    if path != [] && p != [] && p[0] == path[0] {
      var child := if path[0] in t.children then t.children[path[0]] else Trie(map[]);
      InsertHas(child, path[1..], p[1..]);
      assert p[1..] <= path[1..] <==> p <= path by {
        assert p == [p[0]] + p[1..] && path == [path[0]] + path[1..];
      }
    }
  }

  ghost predicate Holds(t: Trie, labels: set<Segments>) {
    forall p :: Has(t, p) <==> p == [] || exists l :: l in labels && p <= l
  }

  lemma InsertHolds(t: Trie, labels: set<Segments>, path: Segments)
    requires Holds(t, labels)
    ensures Holds(Insert(t, path), labels + {path})
  {
    forall p ensures Has(Insert(t, path), p) <==> p == [] || exists l :: l in labels + {path} && p <= l {
      InsertHas(t, path, p);
      assert path in labels + {path};
    }
  }

  // ------------------------------------------------------------------ what the completions are

  /** The segments that come next after `d` in some label. */
  function Next(labels: set<Segments>, d: Segments): set<string> {
    set l | l in labels && d < l :: l[|d|]
  }

  /** `d` is where the labels first leave a choice, or none at all. */
  ghost predicate Deepest(labels: set<Segments>, d: Segments) {
    && (forall i :: 0 <= i < |d| ==> Next(labels, d[..i]) == {d[i]})
    && |Next(labels, d)| != 1
  }

  function Choices(labels: set<Segments>, d: Segments): set<Segments> {
    if labels == {} then {}
    else if Next(labels, d) == {} then {d}
    else set s | s in Next(labels, d) :: d + [s]
  }

  /** No other label continues `l`. */
  ghost predicate Maximal(labels: set<Segments>, l: Segments) {
    l in labels && forall x :: x in labels ==> !(l < x)
  }

  ghost function Above(labels: set<Segments>, l: Segments): set<Segments> {
    set x | x in labels && l < x
  }

  lemma FewerAbove(labels: set<Segments>, l: Segments, x: Segments)
    requires x in labels && l < x
    ensures Above(labels, x) < Above(labels, l)
  {
    assert x in Above(labels, l) && x !in Above(labels, x);
    forall y | y in Above(labels, x) ensures y in Above(labels, l) {
      assert l == x[..|l|] && x == y[..|x|];
      assert l == y[..|l|];
    }
  }

  lemma {:induction false} SomeMaximal(labels: set<Segments>, l: Segments) returns (m: Segments)
    requires l in labels
    ensures Maximal(labels, m) && l <= m
    decreases Above(labels, l)
  {
    if Maximal(labels, l) {
      m := l;
    } else {
      var x :| x in labels && l < x;
      FewerAbove(labels, l, x);
      m := SomeMaximal(labels, x);
    }
  }

  lemma {:induction false} Comparable(labels: set<Segments>, d: Segments, l: Segments, i: nat)
    requires Deepest(labels, d) && l in labels && i <= |d|
    ensures l <= d[..i] || d[..i] <= l
    decreases i
  {
    if i > 0 {
      Comparable(labels, d, l, i - 1);
      if d[..i - 1] < l {
        assert l[i - 1] in Next(labels, d[..i - 1]);
      }
    }
  }

  lemma NotMaximal(labels: set<Segments>, d: Segments, l: Segments)
    requires Deepest(labels, d) && l < d
    ensures !Maximal(labels, l)
  {
    assert d[..|l|] == l;
    assert d[|l|] in Next(labels, l);
  }

  lemma BelowMaximal(labels: set<Segments>, d: Segments, m: Segments)
    requires Deepest(labels, d) && Maximal(labels, m)
    ensures d <= m
  {
    Comparable(labels, d, m, |d|);
    assert d[..|d|] == d;
    if m < d {
      NotMaximal(labels, d, m);
    }
  }

  /** Where a label goes on after `d`, another goes on differently. */
  lemma OtherChoice(labels: set<Segments>, d: Segments, l: Segments) returns (s: string)
    requires Deepest(labels, d) && l in labels && d < l
    ensures s in Next(labels, d) && s != l[|d|]
  {
    assert l[|d|] in Next(labels, d);
    assert Next(labels, d) != {l[|d|]};
    s :| s in Next(labels, d) && s != l[|d|];
  }

  /** `d` is the longest segment list that all maximal labels begin with. */
  lemma LongestCommon(labels: set<Segments>, d: Segments, other: Segments)
    requires Deepest(labels, d) && labels != {}
    requires forall m :: Maximal(labels, m) ==> other <= m
    ensures other <= d
    ensures forall m :: Maximal(labels, m) ==> d <= m
  {
    forall m | Maximal(labels, m) ensures d <= m {
      BelowMaximal(labels, d, m);
    }
    var l :| l in labels;
    var m := SomeMaximal(labels, l);
    assert d <= m && other <= m;
    if |d| < |other| {
      assert d < m;
      var s := OtherChoice(labels, d, m);
      var x :| x in labels && d < x && x[|d|] == s;
      var y := SomeMaximal(labels, x);
      assert false;
    }
  }

  /** There is only one such place. */
  lemma DeepestUnique(labels: set<Segments>, d: Segments, e: Segments)
    requires Deepest(labels, d) && Deepest(labels, e) && labels != {}
    ensures d == e
  {
    LongestCommon(labels, d, []);
    LongestCommon(labels, e, d);
    LongestCommon(labels, d, e);
  }

  /** What is printed for a set of labels behind a prefix. */
  ghost predicate Completed(labels: set<Segments>, prefix: string, completions: set<string>) {
    if labels == {} then completions == {}
    else exists d :: Deepest(labels, d) && completions == set c | c in Choices(labels, d) :: prefix + Join(c)
  }

  /** Labels and prefix leave no choice about that. */
  lemma CompletedUnique(labels: set<Segments>, prefix: string, x: set<string>, y: set<string>)
    requires Completed(labels, prefix, x) && Completed(labels, prefix, y)
    ensures x == y
  {
    if labels != {} {
      var d :| Deepest(labels, d) && x == set c | c in Choices(labels, d) :: prefix + Join(c);
      var e :| Deepest(labels, e) && y == set c | c in Choices(labels, e) :: prefix + Join(c);
      DeepestUnique(labels, d, e);
    }
  }

  /** The choices are made by the maximal labels alone: either all of them are one label, and that
      is the completion, or there are two or more and each continues one of the choices. */
  lemma ChoicesOfMaximal(labels: set<Segments>, d: Segments)
    requires Deepest(labels, d) && labels != {}
    ensures forall c :: c in Choices(labels, d) <==>
              exists m :: Maximal(labels, m) && d <= m && c == if |d| < |m| then m[..|d| + 1] else m
    ensures |Next(labels, d)| == 0 <==> forall m :: Maximal(labels, m) ==> m == d
  {
    forall m | Maximal(labels, m) ensures d <= m {
      BelowMaximal(labels, d, m);
    }
    var l :| l in labels;
    var m := SomeMaximal(labels, l);
    forall c | c in Choices(labels, d)
      ensures exists m :: Maximal(labels, m) && d <= m && c == if |d| < |m| then m[..|d| + 1] else m
    {
      ChoiceFromMaximal(labels, d, c, m);
    }
    forall m | Maximal(labels, m) && d <= m
      ensures (if |d| < |m| then m[..|d| + 1] else m) in Choices(labels, d)
      ensures d < m ==> m[|d|] in Next(labels, d)
    {
      MaximalMakesChoice(labels, d, m);
    }
    if Next(labels, d) != {} {
      var s :| s in Next(labels, d);
      var x :| x in labels && d < x && x[|d|] == s;
      var y := SomeMaximal(labels, x);
    }
  }

  lemma NextOf(labels: set<Segments>, d: Segments, l: Segments)
    requires l in labels && d < l
    ensures l[|d|] in Next(labels, d) && Next(labels, d) != {}
  {
    assert l[|d|] in Next(labels, d);
  }

  lemma NothingNext(labels: set<Segments>, d: Segments, l: Segments)
    requires Next(labels, d) == {} && l in labels && d <= l
    ensures l == d
  {
    if d < l {
      NextOf(labels, d, l);
    }
  }

  lemma ChoiceFromMaximal(labels: set<Segments>, d: Segments, c: Segments, some: Segments)
    requires c in Choices(labels, d) && Maximal(labels, some) && d <= some
    ensures exists m :: Maximal(labels, m) && d <= m && c == if |d| < |m| then m[..|d| + 1] else m
  {
    if Next(labels, d) == {} {
      NothingNext(labels, d, some);
    } else {
      var s :| s in Next(labels, d) && c == d + [s];
      var x :| x in labels && d < x && x[|d|] == s;
      var m := SomeMaximal(labels, x);
      assert m[..|d| + 1] == c;
    }
  }

  lemma MaximalMakesChoice(labels: set<Segments>, d: Segments, m: Segments)
    requires Deepest(labels, d) && Maximal(labels, m) && d <= m
    ensures (if |d| < |m| then m[..|d| + 1] else m) in Choices(labels, d)
    ensures d < m ==> m[|d|] in Next(labels, d)
  {
    if d < m {
      assert m[|d|] in Next(labels, d);
      assert m[..|d| + 1] == d + [m[|d|]];
    } else {
      assert m == d && Next(labels, d) == {};
    }
  }

  /** A label that another continues, and that every other label is comparable with. */
  ghost predicate Buried(labels: set<Segments>, l: Segments) {
    l in labels && !Maximal(labels, l) && forall x :: x in labels ==> l <= x || x <= l
  }

  ghost predicate ExtendsOnly(choices: set<Segments>, l: Segments, c: Segments) {
    c in choices && c <= l && forall c' :: c' in choices && c' <= l ==> c' == c
  }

  ghost predicate ExtendsOne(choices: set<Segments>, l: Segments) {
    exists c :: ExtendsOnly(choices, l, c)
  }

  /** An inserted label extends exactly one completion, unless it is buried: then it extends none. */
  lemma ExtendsUnlessBuried(labels: set<Segments>, d: Segments, l: Segments)
    requires Deepest(labels, d) && l in labels
    ensures ExtendsOne(Choices(labels, d), l) <==> !Buried(labels, l)
  {
    Comparable(labels, d, l, |d|);
    assert d[..|d|] == d;
    if d < l {
      NotBuried(labels, d, l);
      GoesOn(labels, d, l);
    } else if Maximal(labels, l) {
      BelowMaximal(labels, d, l);
      assert l == d;
      LastIsOnly(labels, d);
    } else {
      assert l <= d;
      forall x | x in labels ensures l <= x || x <= l {
        Comparable(labels, d, x, |d|);
      }
      NoneBelow(labels, d, l);
    }
  }

  lemma NotBuried(labels: set<Segments>, d: Segments, l: Segments)
    requires Deepest(labels, d) && l in labels && d < l
    ensures !Buried(labels, l)
  {
    var s := OtherChoice(labels, d, l);
    var x :| x in labels && d < x && x[|d|] == s;
    assert !(l <= x || x <= l);
  }

  lemma GoesOn(labels: set<Segments>, d: Segments, l: Segments)
    requires l in labels && d < l
    ensures ExtendsOne(Choices(labels, d), l)
  {
    var c := d + [l[|d|]];
    assert l[|d|] in Next(labels, d);
    forall c' | c' in Choices(labels, d) && c' <= l ensures c' == c {
      var s :| s in Next(labels, d) && c' == d + [s];
      assert c'[|d|] == l[|d|];
    }
    assert ExtendsOnly(Choices(labels, d), l, c);
  }

  lemma LastIsOnly(labels: set<Segments>, d: Segments)
    requires Maximal(labels, d)
    ensures ExtendsOne(Choices(labels, d), d)
  {
    assert Next(labels, d) == {};
    assert Choices(labels, d) == {d};
    assert ExtendsOnly(Choices(labels, d), d, d);
  }

  lemma NoneBelow(labels: set<Segments>, d: Segments, l: Segments)
    requires Deepest(labels, d) && l in labels && !Maximal(labels, l) && l <= d
    ensures !ExtendsOne(Choices(labels, d), l)
  {
    if l == d {
      var x :| x in labels && l < x;
      assert x[|d|] in Next(labels, d);
    }
  }

  /** Of the two labels "a" and "a:b" only the second is offered. */
  lemma ShorterLabelMissing()
    ensures var labels: set<Segments> := {["a"], ["a", ":b"]};
            && Deepest(labels, ["a", ":b"]) && Choices(labels, ["a", ":b"]) == {["a", ":b"]}
            && !ExtendsOne(Choices(labels, ["a", ":b"]), ["a"])
  {
    var labels: set<Segments> := {["a"], ["a", ":b"]};
    var d := ["a", ":b"];
    assert ["a"] < d && [] < ["a"] && [] < d;
    assert Next(labels, []) == {"a"} by {
      assert ["a"][0] in Next(labels, []);
    }
    assert Next(labels, ["a"]) == {":b"} by {
      assert d[1] in Next(labels, ["a"]);
    }
    assert d[..0] == [] && d[..1] == ["a"] && Next(labels, d) == {};
    assert Buried(labels, ["a"]);
    ExtendsUnlessBuried(labels, d, ["a"]);
  }

  /** Where no label continues another, every label extends exactly one completion. */
  lemma IndependentLabels(labels: set<Segments>, d: Segments)
    requires Deepest(labels, d)
    requires forall a, b :: a in labels && b in labels ==> !(a < b)
    ensures forall l :: l in labels ==> ExtendsOne(Choices(labels, d), l)
  {
    forall l | l in labels ensures ExtendsOne(Choices(labels, d), l) {
      ExtendsUnlessBuried(labels, d, l);
    }
  }

  // ------------------------------------------------------------------ the class

  ghost predicate At(labels: set<Segments>, d: Segments, t: Trie) {
    && (forall i :: 0 <= i < |d| ==> Next(labels, d[..i]) == {d[i]})
    && (forall p :: Has(t, p) ==> d + p == [] || exists l :: l in labels && d + p <= l)
    && (forall p :: (exists l :: l in labels && d + p <= l) ==> Has(t, p))
  }

  lemma AtRoot(labels: set<Segments>, t: Trie)
    requires Holds(t, labels)
    ensures At(labels, [], t)
  {
    assert forall p: Segments :: [] + p == p;
  }

  lemma KeysAreNext(labels: set<Segments>, d: Segments, t: Trie)
    requires At(labels, d, t)
    ensures t.children.Keys == Next(labels, d)
  {
    forall s ensures s in t.children.Keys <==> s in Next(labels, d) {
      if s in t.children {
        assert Has(t, [s]);
        var l :| l in labels && d + [s] <= l;
        assert d < l && l[|d|] == s;
      }
      if s in Next(labels, d) {
        var l :| l in labels && d < l && l[|d|] == s;
        assert d + [s] <= l;
        assert Has(t, [s]);
      }
    }
  }

  lemma AtChild(labels: set<Segments>, d: Segments, t: Trie, s: string)
    requires At(labels, d, t) && t.children.Keys == {s}
    ensures At(labels, d + [s], t.children[s])
  {
    KeysAreNext(labels, d, t);
    var e, u := d + [s], t.children[s];
    forall i | 0 <= i < |e| ensures Next(labels, e[..i]) == {e[i]} {
      assert e[..i] == d[..i];
      assert i == |d| ==> d[..i] == d;
    }
    forall p ensures Has(u, p) <==> Has(t, [s] + p) {
      assert ([s] + p)[1..] == p;
    }
    forall p: Segments ensures e + p == d + ([s] + p) {
    }
  }

  lemma NoneInserted(labels: set<Segments>, t: Trie)
    requires Holds(t, labels) && t.children.Keys == {}
    requires forall l :: l in labels ==> l != []
    ensures labels == {}
  {
    if labels != {} {
      var l :| l in labels;
      assert l[..1] <= l && !Has(t, l[..1]);
    }
  }

  lemma SomeInserted(labels: set<Segments>, t: Trie)
    requires Holds(t, labels) && t.children.Keys != {}
    ensures labels != {}
  {
    var s :| s in t.children;
    assert Has(t, [s]);
  }

  lemma OnlyKey(m: map<string, Trie>, s: string)
    requires |m| == 1 && s in m
    ensures m.Keys == {s}
  {
    assert |m.Keys - {s}| == 0;
  }

  lemma JoinChoices(labels: set<Segments>, d: Segments, prefix: string)
    requires Next(labels, d) != {} && labels != {}
    ensures (set s | s in Next(labels, d) :: prefix + Join(d) + s) == set c | c in Choices(labels, d) :: prefix + Join(c)
  {
    forall s: string ensures prefix + Join(d) + s == prefix + Join(d + [s]) {
      JoinAppend(d, [s]);
      assert Join([s]) == s;
    }
    forall s | s in Next(labels, d)
      ensures prefix + Join(d) + s in (set c | c in Choices(labels, d) :: prefix + Join(c))
    {
      assert d + [s] in Choices(labels, d);
    }
  }

  class Completions {
    const prefix: string
    var children: Trie
    ghost var labels: set<Segments>

    ghost predicate Valid()
      reads this
    {
      Holds(children, labels) && forall l :: l in labels ==> l != []
    }

    constructor (prefix: string)
      ensures Valid() && this.prefix == prefix && labels == {}
    {
      this.prefix := prefix;
      children := Trie(map[]);
      labels := {};
    }

    /** Fails, changing nothing, on a label without the prefix and on one that cannot be split. */
    method InsertLabel(text: string) returns (ok: bool)
      requires Valid()
      modifies this
      ensures Valid()
      ensures ok <==> prefix <= text && Splittable(text[|prefix|..])
      ensures labels == if ok then old(labels) + {Split(text[|prefix|..])} else old(labels)
    {
      if !(prefix <= text) {
        return false;
      }
      var r := SplitLabel(text[|prefix|..]);
      if r.Failure? {
        return false;
      }
      SplitJoins(text[|prefix|..]);
      InsertHolds(children, labels, r.value);
      children := Insert(children, r.value);
      labels := labels + {r.value};
      return true;
    }

    method ListCompletions() returns (completions: set<string>)
      requires Valid()
      ensures Completed(labels, prefix, completions)
    {
      ghost var d: Segments := [];
      if |children.children| == 0 {
        NoneInserted(labels, children);
        return {};
      }
      var text, node := "", children;
      SomeInserted(labels, children);
      AtRoot(labels, children);
      KeysAreNext(labels, d, node);
      while |node.children| == 1
        invariant At(labels, d, node) && node.children.Keys == Next(labels, d)
        invariant text == Join(d)
        decreases node
      {
        var s :| s in node.children;
        OnlyKey(node.children, s);
        AtChild(labels, d, node, s);
        JoinAppend(d, [s]);
        assert Join([s]) == s;
        d, node, text := d + [s], node.children[s], text + s;
        KeysAreNext(labels, d, node);
      }
      if |node.children| == 0 {
        completions := {prefix + text};
        assert Choices(labels, d) == {d};
      } else {
        completions := set s | s in node.children :: prefix + text + s;
        JoinChoices(labels, d, prefix);
      }
      assert Deepest(labels, d);
    }
  }

  // ------------------------------------------------------------------ the program

  /** The prefix that targets are matched with. */
  function MatchPrefix(subdir: string, search: string): Result<string> {
    if IsRelative(search) then Concat("//" + subdir, search) else Success(search)
  }

  /** How a matching target is inserted. */
  function Shown(subdir: string, search: string, target: string): string {
    if IsRelative(search) then MakeRelative("//" + subdir, target) else target
  }

  function Rest(subdir: string, search: string, target: string): string {
    var shown := Shown(subdir, search, target);
    if |search| <= |shown| then shown[|search|..] else ""
  }

  lemma ShownHasPrefix(subdir: string, search: string, target: string)
    requires MatchPrefix(subdir, search).Success? && MatchPrefix(subdir, search).value <= target
    ensures search <= Shown(subdir, search, target)
  {
    if IsRelative(search) {
      RelativeHasPrefix("//" + subdir, search, target);
    }
  }

  function Matching(targets: seq<string>, prefix: string): set<string> {
    set t | t in targets && prefix <= t
  }

  /** Fails exactly if the search label cannot be joined to the base, or if what a matching target
      adds to it cannot be split; otherwise lists the completions of the matching targets. */
  method Complete(subdir: string, search: string, targets: seq<string>) returns (r: Result<set<string>>)
    ensures r.Failure? <==>
      || MatchPrefix(subdir, search).Failure?
      || exists t :: t in Matching(targets, MatchPrefix(subdir, search).value) && !Splittable(Rest(subdir, search, t))
    ensures r.Success? ==>
      var labels := set t | t in Matching(targets, MatchPrefix(subdir, search).value) :: Split(Rest(subdir, search, t));
      Completed(labels, search, r.value)
  {
    var prefix := MatchPrefix(subdir, search);
    if prefix.Failure? {
      return Failure;
    }
    var completions := new Completions(search);
    for i := 0 to |targets|
      invariant completions.Valid() && completions.prefix == search && fresh(completions)
      invariant completions.labels == set t | t in Matching(targets[..i], prefix.value) :: Split(Rest(subdir, search, t))
      invariant forall t :: t in Matching(targets[..i], prefix.value) ==> Splittable(Rest(subdir, search, t))
    {
      var target := targets[i];
      MatchingNext(targets, prefix.value, i);
      if prefix.value <= target {
        ShownHasPrefix(subdir, search, target);
        var ok := completions.InsertLabel(Shown(subdir, search, target));
        if !ok {
          assert target in Matching(targets, prefix.value);
          return Failure;
        }
      }
    }
    assert targets[..|targets|] == targets;
    var found := completions.ListCompletions();
    r := Success(found);
  }

  lemma MatchingNext(targets: seq<string>, prefix: string, i: nat)
    requires i < |targets|
    ensures Matching(targets[..i + 1], prefix) ==
            Matching(targets[..i], prefix) + if prefix <= targets[i] then {targets[i]} else {}
  {
    assert targets[..i + 1] == targets[..i] + [targets[i]];
  }
}
