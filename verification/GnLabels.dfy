/** GN labels as the completion script handles them: splitting into segments, joining a base with a
    relative label, and making a label relative to a base. */
module GnLabels {
  import opened Common

  datatype Result<T> = Success(value: T) | Failure

  // ------------------------------------------------------------------ searching in a label

  /** The least position of `c` at or after `from`, or -1. */
  function Find(s: string, c: char, from: nat): (k: int)
    ensures k == -1 || from <= k < |s|
    ensures k == -1 ==> forall i :: from <= i < |s| ==> s[i] != c
    ensures k != -1 ==> s[k] == c && forall i :: from <= i < k ==> s[i] != c
    decreases |s| - from
  {
    if from >= |s| then -1 else if s[from] == c then from else Find(s, c, from + 1)
  }

  /** The greatest position of `c`, or -1. */
  function FindLast(s: string, c: char): (k: int)
    ensures -1 <= k < |s|
    ensures forall i :: k < i < |s| ==> s[i] != c
    ensures k != -1 ==> s[k] == c
  {
    if s == "" then -1 else if s[|s| - 1] == c then |s| - 1 else FindLast(s[..|s| - 1], c)
  }

  predicate EndsIn(s: string, c: char) {
    s != "" && s[|s| - 1] == c
  }

  predicate StartsIn(s: string, c: char) {
    s != "" && s[0] == c
  }

  function Join(segments: seq<string>): string {
    if segments == [] then "" else segments[0] + Join(segments[1..])
  }

  lemma {:induction false} JoinAppend(a: seq<string>, b: seq<string>)
    ensures Join(a + b) == Join(a) + Join(b)
  {
    if a == [] {
      assert a + b == b;
    } else {
      JoinAppend(a[1..], b);
      assert (a + b)[0] == a[0] && (a + b)[1..] == a[1..] + b;
      Assoc(a[0], Join(a[1..]), Join(b));
    }
  }

  // ------------------------------------------------------------------ splitting

  /** `cuts` are the pieces of a path: put together they are the path, and a slash stands at the
      front of every piece but perhaps the first and nowhere else. */
  ghost predicate IsCut(path: string, cuts: seq<string>) {
    && Join(cuts) == path
    && (forall i :: 0 <= i < |cuts| ==> Solid(cuts[i]))
    && (forall i :: 0 < i < |cuts| ==> StartsIn(cuts[i], '/'))
  }

  /** Not empty, with no slash except perhaps in front. */
  ghost predicate Solid(piece: string) {
    piece != "" && forall i :: 1 <= i < |piece| ==> piece[i] != '/'
  }

  function Pieces(path: string): seq<string>
    decreases |path|
  {
    if path == "" then []
    else
      var k := Find(path, '/', 1);
      if k == -1 then [path] else [path[..k]] + Pieces(path[k..])
  }

  lemma CutCons(first: string, path: string, rest: seq<string>)
    requires Solid(first) && IsCut(path, rest) && (rest != [] ==> StartsIn(rest[0], '/'))
    ensures IsCut(first + path, [first] + rest)
  {
    var cuts := [first] + rest;
    assert cuts[1..] == rest;
    forall i | 0 < i < |cuts| ensures Solid(cuts[i]) && StartsIn(cuts[i], '/') {
      assert cuts[i] == rest[i - 1];
    }
  }

  lemma OneCut(path: string)
    requires Solid(path)
    ensures IsCut(path, [path])
  {
    assert [path][1..] == [];
  }

  lemma FirstPiece(path: string, k: nat)
    requires path != "" && k == Find(path, '/', 1)
    ensures Solid(path[..k]) && StartsWithOf(path[..k], path) && path[k..] != "" && path[k..][0] == '/'
    ensures path == path[..k] + path[k..] && Pieces(path) == [path[..k]] + Pieces(path[k..])
  {
  }

  lemma {:induction false} PiecesCut(path: string)
    ensures IsCut(path, Pieces(path))
    ensures path != "" ==> Pieces(path) != [] && StartsWithOf(Pieces(path)[0], path)
    decreases |path|
  {
    if path != "" {
      var k := Find(path, '/', 1);
      if k == -1 {
        OneCut(path);
      } else {
        var first, tail := path[..k], path[k..];
        FirstPiece(path, k);
        PiecesCut(tail);
        CutCons(first, tail, Pieces(tail));
      }
    }
  }

  /** The same first character. */
  ghost predicate StartsWithOf(piece: string, path: string) {
    piece != "" && path != "" && piece[0] == path[0]
  }

  /** A path has only one such cut. */
  lemma {:induction false} CutUnique(path: string, a: seq<string>, b: seq<string>)
    requires IsCut(path, a) && IsCut(path, b)
    ensures a == b
    decreases |a|
  {
    if a == [] {
      assert b == [];
    } else {
      assert b != [];
      FirstCut(a, b);
      FirstCut(b, a);
      assert a[0] == path[..|a[0]|] && b[0] == path[..|b[0]|];
      var rest := path[|a[0]|..];
      assert path == a[0] + Join(a[1..]) == b[0] + Join(b[1..]);
      CutUnique(rest, a[1..], b[1..]);
    }
  }

  lemma SecondCut(cuts: seq<string>)
    requires cuts != [] && IsCut(Join(cuts), cuts)
    ensures cuts[0] <= Join(cuts)
    ensures |cuts[0]| == |Join(cuts)| || (|cuts[0]| < |Join(cuts)| && Join(cuts)[|cuts[0]|] == '/')
  {
    if |cuts| > 1 {
      assert Join(cuts[1..]) == cuts[1] + Join(cuts[1..][1..]);
    }
  }

  lemma FirstCut(a: seq<string>, b: seq<string>)
    requires a != [] && b != [] && Join(a) == Join(b) && IsCut(Join(a), a) && IsCut(Join(a), b)
    ensures |a[0]| <= |b[0]|
  {
    SecondCut(a);
    SecondCut(b);
  }

  /** The four parts of a label: toolchain, target, and the path before them. */
  function ToolchainOf(text: string): string {
    if EndsIn(text, ')') && '(' in text then text[FindLast(text, '(')..] else ""
  }

  function BodyOf(text: string): (body: string)
    ensures body + ToolchainOf(text) == text
  {
    if EndsIn(text, ')') && '(' in text then text[..FindLast(text, '(')] else text
  }

  function LeafOf(body: string): string {
    var k := Find(body, ':', 0);
    if k == -1 then "" else body[k..]
  }

  function PathOf(body: string): (path: string)
    ensures path + LeafOf(body) == body && ':' !in path
  {
    var k := Find(body, ':', 0);
    if k == -1 then body else body[..k]
  }

  /** A toolchain is what stands from the last opening parenthesis on, if the label ends with a closing
      one; a target is what stands from the first colon on. */
  lemma PartsAre(text: string, body: string)
    ensures var chain := ToolchainOf(text);
            if text != "" && text[|text| - 1] == ')' && '(' in text
            then chain != "" && chain[0] == '(' && '(' !in chain[1..] && chain[|chain| - 1] == ')'
            else chain == ""
    ensures LeafOf(body) == "" <==> ':' !in body
    ensures ':' in body ==> LeafOf(body)[0] == ':'
  {
  }

  /** The toolchain goes onto the last segment. */
  function Glue(segments: seq<string>, toolchain: string): (r: seq<string>)
    ensures toolchain != "" || segments != [] ==> r != []
  {
    if toolchain == "" then segments
    else if segments == [] then [toolchain]
    else segments[|segments| - 1 := segments[|segments| - 1] + toolchain]
  }

  function PathSegments(path: string): seq<string> {
    if "//" <= path then ["//"] + Pieces(path[2..]) else Pieces(path)
  }

  function Unglued(body: string): seq<string> {
    var leaf := LeafOf(body);
    if leaf == "" then PathSegments(PathOf(body)) else PathSegments(PathOf(body)) + [leaf]
  }

  function Split(text: string): seq<string> {
    if text == "" then [""] else Glue(Unglued(BodyOf(text)), ToolchainOf(text))
  }

  /** A closing parenthesis at the end needs an opening one. */
  predicate Splittable(text: string) {
    EndsIn(text, ')') ==> '(' in text
  }

  lemma JoinGlue(segments: seq<string>, toolchain: string)
    ensures Join(Glue(segments, toolchain)) == Join(segments) + toolchain
  {
    if toolchain != "" && segments != [] {
      var n := |segments| - 1;
      var front := segments[..n];
      assert segments == front + [segments[n]];
      assert Glue(segments, toolchain) == front + [segments[n] + toolchain];
      JoinAppend(front, [segments[n]]);
      JoinAppend(front, [segments[n] + toolchain]);
    }
  }

  lemma JoinPath(path: string)
    ensures Join(PathSegments(path)) == path
  {
    if "//" <= path {
      PiecesCut(path[2..]);
      JoinAppend(["//"], Pieces(path[2..]));
    } else {
      PiecesCut(path);
    }
  }

  /** The segments of a label, joined without separator, are the label; there is at least one, and
      only the empty label has an empty one. */
  lemma SplitJoins(text: string)
    ensures Join(Split(text)) == text && Split(text) != []
    ensures text != "" ==> AllFilled(Split(text))
  {
    if text != "" {
      var body := BodyOf(text);
      var path, leaf, chain := PathOf(body), LeafOf(body), ToolchainOf(text);
      JoinPath(path);
      JoinAppend(PathSegments(path), [leaf]);
      assert Join([leaf]) == leaf;
      JoinGlue(Unglued(body), chain);
      PathFilled(path);
      GlueFilled(Unglued(body), chain);
    }
  }

  ghost predicate AllFilled(segments: seq<string>) {
    forall i :: 0 <= i < |segments| ==> segments[i] != ""
  }

  lemma PathFilled(path: string)
    ensures AllFilled(PathSegments(path))
  {
    if "//" <= path {
      PiecesCut(path[2..]);
    } else {
      PiecesCut(path);
    }
  }

  lemma GlueFilled(segments: seq<string>, toolchain: string)
    requires AllFilled(segments)
    ensures AllFilled(Glue(segments, toolchain))
  {
  }

  /** Target and toolchain make up the last segment. An absolute label has "//" as its first segment
      unless it is nothing but "//" with a toolchain, which goes onto that segment. */
  lemma SplitShape(text: string)
    requires text != ""
    ensures var segments, body, chain := Split(text), BodyOf(text), ToolchainOf(text);
            && segments != []
            && (LeafOf(body) != "" ==> segments[|segments| - 1] == LeafOf(body) + chain)
            && ("//" <= text ==> (segments[0] == "//" <==> !(body == "//" && chain != "")))
  {
    SplitJoins(text);
    var body, chain := BodyOf(text), ToolchainOf(text);
    if "//" <= text {
      assert "//" <= body && "//" <= PathOf(body);
      assert Unglued(body)[0] == "//";
      if |Unglued(body)| == 1 {
        assert LeafOf(body) == "";
        PiecesCut(PathOf(body)[2..]);
      }
    }
  }

  /** The root with a toolchain: one segment, which is not "//". */
  lemma RootWithToolchain()
    ensures Split("//(//t)") == ["//(//t)"]
  {
    var text := "//(//t)";
    assert text[2] == '(' && EndsIn(text, ')');
    assert FindLast(text, '(') == 2;
    assert BodyOf(text) == "//" && ToolchainOf(text) == "(//t)";
    assert PathOf("//") == "//" && LeafOf("//") == "";
    assert "//"[2..] == "" && PathSegments("//") == ["//"] + [];
    assert "//" + "(//t)" == text;
  }

  /** The loop that cuts a path. */
  method CutPath(path: string) returns (segments: seq<string>)
    ensures segments == Pieces(path)
  {
    segments := [];
    var text := path;
    while true
      invariant segments + Pieces(text) == Pieces(path)
      decreases |text|
    {
      var idx := Find(text, '/', 1);
      if idx > 0 {
        assert segments + Pieces(text) == segments + [text[..idx]] + Pieces(text[idx..]);
        segments := segments + [text[..idx]];
        text := text[idx..];
      } else {
        if text != "" {
          segments := segments + [text];
        }
        break;
      }
    }
  }

  method SplitBody(body: string) returns (segments: seq<string>)
    ensures segments == Unglued(body)
  {
    var text, leaf := body, "";
    var leafIdx := Find(text, ':', 0);
    if leafIdx >= 0 {
      leaf := text[leafIdx..];
      text := text[..leafIdx];
    }
    segments := [];
    if "//" <= text {
      segments := ["//"];
      text := text[2..];
    }
    var cuts := CutPath(text);
    segments := segments + cuts;
    if leaf != "" {
      segments := segments + [leaf];
    }
  }

  /** Fails exactly on a label that ends in a parenthesis it never opens. */
  method SplitLabel(whole: string) returns (r: Result<seq<string>>)
    ensures r == if Splittable(whole) then Success(Split(whole)) else Failure
  {
    if whole == "" {
      return Success([""]);
    }
    var text, toolchain := whole, "";
    if EndsIn(text, ')') {
      var idx := FindLast(text, '(');
      if idx == -1 {
        return Failure;
      }
      toolchain := text[idx..];
      text := text[..idx];
    }
    var segments := SplitBody(text);
    if toolchain != "" {
      if segments != [] {
        segments := segments[|segments| - 1 := segments[|segments| - 1] + toolchain];
      } else {
        segments := [toolchain];
      }
    }
    return Success(segments);
  }

  /** Completing inside a toolchain: what is left of the target ends in a parenthesis that was
      opened before the cut. */
  lemma CutInsideToolchain()
    ensures var target, search := "//a:b(//c:d)", "//a:b(//";
            search <= target && Splittable(target) && !Splittable(target[|search|..])
  {
    var target, search := "//a:b(//c:d)", "//a:b(//";
    assert target == search + "c:d)";
    assert target[5] == '(' && EndsIn(target, ')');
    assert target[|search|..] == "c:d)";
  }

  // ------------------------------------------------------------------ bases and relative labels

  predicate IsRelative(text: string) {
    !("//" <= text)
  }

  function Concat(base: string, leaf: string): Result<string> {
    if ':' in base || StartsIn(leaf, '/') then Failure
    else if StartsIn(leaf, ':') || leaf == "" || EndsIn(base, '/') then Success(base + leaf)
    else Success(base + "/" + leaf)
  }

  function MakeRelative(base: string, absolute: string): string {
    var relative := if |base| <= |absolute| then absolute[|base|..] else "";
    if StartsIn(relative, '/') then relative[1..] else relative
  }

  /** Whatever target matches the joined prefix, made relative it starts with the search label. */
  lemma RelativeHasPrefix(base: string, search: string, target: string)
    requires Concat(base, search).Success? && Concat(base, search).value <= target
    ensures search <= MakeRelative(base, target)
  {
    var relative := target[|base|..];
    if StartsIn(search, ':') || search == "" || EndsIn(base, '/') {
      assert target[..|base + search|] == base + search;
      assert forall i :: 0 <= i < |search| ==> relative[i] == target[|base| + i] == (base + search)[|base| + i];
    } else {
      var slashed := base + "/" + search;
      assert relative[0] == target[|base|] == slashed[|base|] == '/';
      assert forall i :: 0 <= i < |search| ==>
          relative[1..][i] == target[|base| + 1 + i] == slashed[|base| + 1 + i];
    }
  }

  /** Joining undoes making relative exactly when what follows the base is nothing, a target, a
      proper path behind a slash the base does not have, or anything else behind a slash it has. */
  predicate Rejoins(base: string, rest: string) {
    && ':' !in base
    && (|| rest == "" || rest[0] == ':'
        || (rest[0] == '/' && !EndsIn(base, '/') && |rest| > 1 && rest[1] != '/' && rest[1] != ':')
        || (rest[0] != '/' && EndsIn(base, '/')))
  }

  lemma RelativeRoundTrip(base: string, rest: string)
    ensures Concat(base, MakeRelative(base, base + rest)) == Success(base + rest) <==> Rejoins(base, rest)
  {
    var absolute := base + rest;
    assert absolute[|base|..] == rest;
    var relative := MakeRelative(base, absolute);
    if ':' !in base && !StartsIn(relative, '/') {
      if StartsIn(rest, '/') {
        assert rest == "/" + relative && base + rest == base + "/" + relative;
        assert |base + relative| < |absolute|;
      } else if rest != "" {
        assert |base + "/" + relative| > |absolute|;
      }
    }
  }

  /** A base that ends inside a path component is not noticed. */
  lemma SiblingTakenForChild()
    ensures MakeRelative("//foo", "//foobar:x") == "bar:x" && Concat("//foo", "bar:x") == Success("//foo/bar:x")
  {
    assert "//foobar:x"[|"//foo"|..] == "bar:x";
    assert "//foo" + "/" + "bar:x" == "//foo/bar:x";
  }
}
