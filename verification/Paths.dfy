/** Relative path parsing and the symbolic-link check on working directories, under Unix path rules (path.go). */
module Paths {
  import opened Common

  // ---- splitting and joining at slashes ----

  function Split(s: string): (cs: seq<string>)
    ensures |cs| >= 1
    ensures forall i :: 0 <= i < |cs| ==> '/' !in cs[i]
  {
    if s == "" then [""]
    else
      var rest := Split(s[1..]);
      if s[0] == '/' then [""] + rest else [[s[0]] + rest[0]] + rest[1..]
  }

  function Join(cs: seq<string>): string {
    if cs == [] then "" else if |cs| == 1 then cs[0] else cs[0] + "/" + Join(cs[1..])
  }

  ghost predicate SlashFree(cs: seq<string>) {
    forall i :: 0 <= i < |cs| ==> '/' !in cs[i]
  }

  lemma {:induction false} SplitPlain(c: string)
    requires '/' !in c
    ensures Split(c) == [c]
  {
    if c != "" {
      assert c[0] in c && forall x :: x in c[1..] ==> x in c;
      SplitPlain(c[1..]);
      assert c == [c[0]] + c[1..];
    }
  }

  lemma {:induction false} SplitFirst(c: string, rest: string)
    requires '/' !in c
    ensures Split(c + "/" + rest) == [c] + Split(rest)
  {
    var s := c + "/" + rest;
    if c == "" {
      assert s == "/" + rest && s[1..] == rest;
    } else {
      assert c[0] in c && forall x :: x in c[1..] ==> x in c;
      SplitFirst(c[1..], rest);
      assert s[1..] == c[1..] + "/" + rest;
      assert s[0] == c[0] && c == [c[0]] + c[1..];
      assert ([c[1..]] + Split(rest))[1..] == Split(rest);
    }
  }

  lemma {:induction false} SplitJoin(cs: seq<string>)
    requires cs != [] && SlashFree(cs)
    ensures Split(Join(cs)) == cs
  {
    if |cs| == 1 {
      SplitPlain(cs[0]);
    } else {
      SplitJoin(cs[1..]);
      SplitFirst(cs[0], Join(cs[1..]));
      assert cs == [cs[0]] + cs[1..];
    }
  }

  lemma {:induction false} JoinAppend(cs: seq<string>, c: string)
    requires cs != []
    ensures Join(cs + [c]) == Join(cs) + "/" + c
  {
    if |cs| > 1 {
      assert (cs + [c])[1..] == cs[1..] + [c];
      JoinAppend(cs[1..], c);
      assert cs[0] + "/" + (Join(cs[1..]) + "/" + c) == (cs[0] + "/" + Join(cs[1..])) + "/" + c;
    } else {
      assert (cs + [c])[1..] == [c];
    }
  }

  // ---- lexical cleaning ----

  predicate IsName(c: string) {
    c != "" && c != "." && c != ".."
  }

  ghost predicate AllNames(cs: seq<string>) {
    forall i :: 0 <= i < |cs| ==> IsName(cs[i])
  }

  /** One component of filepath.Clean. */
  function Push(stack: seq<string>, rooted: bool, c: string): seq<string> {
    if c == "" || c == "." then stack
    else if c == ".." then
      if stack != [] && stack[|stack| - 1] != ".." then stack[..|stack| - 1]
      else if rooted then stack
      else stack + [c]
    else stack + [c]
  }

  function Fold(stack: seq<string>, rooted: bool, cs: seq<string>): seq<string>
    decreases |cs|
  {
    if cs == [] then stack else Fold(Push(stack, rooted, cs[0]), rooted, cs[1..])
  }

  predicate Rooted(s: string) {
    s != "" && s[0] == '/'
  }

  function Clean(s: string): string {
    var stack := Fold([], Rooted(s), Split(s));
    if Rooted(s) then "/" + Join(stack) else if stack == [] then "." else Join(stack)
  }

  // ---- parsing ----

  /** The characters of Unicode's White_Space property. */
  predicate IsSpace(c: char) {
    || '\t' <= c <= '\r' || c == ' ' || c == '\U{0085}' || c == '\U{00A0}' || c == '\U{1680}'
    || '\U{2000}' <= c <= '\U{200A}' || c == '\U{2028}' || c == '\U{2029}' || c == '\U{202F}'
    || c == '\U{205F}' || c == '\U{3000}'
  }

  function TrimLeft(s: string): string {
    if s != "" && IsSpace(s[0]) then TrimLeft(s[1..]) else s
  }

  function TrimRight(s: string): string {
    if s != "" && IsSpace(s[|s| - 1]) then TrimRight(s[..|s| - 1]) else s
  }

  function TrimSpace(s: string): string {
    TrimRight(TrimLeft(s))
  }

  datatype Parsed = Accepted(native: string) | Malformed | Escapes | NamesRoot

  function Parse(requested: string, allowRoot: bool): Parsed {
    if requested == "" || requested != TrimSpace(requested) || '\0' in requested then Malformed
    else
      var native := Clean(requested);
      if Rooted(native) || native == ".." || "../" <= native then Escapes
      else if native == "." && !allowRoot then NamesRoot
      else Accepted(native)
  }

  /** The code points with Unicode's White_Space property, one by one. */
  const WHITE_SPACE := {
    0x09, 0x0a, 0x0b, 0x0c, 0x0d, 0x20, 0x85, 0xa0, 0x1680,
    0x2000, 0x2001, 0x2002, 0x2003, 0x2004, 0x2005, 0x2006, 0x2007, 0x2008, 0x2009, 0x200a,
    0x2028, 0x2029, 0x202f, 0x205f, 0x3000
  }

  lemma WhiteSpaceExactly(c: char)
    ensures IsSpace(c) <==> c as int in WHITE_SPACE
  {
  }

  /** Trimming changes a text exactly when it begins or ends with white space. */
  lemma TrimmedExactly(s: string)
    requires s != ""
    ensures s == TrimSpace(s) <==> !IsSpace(s[0]) && !IsSpace(s[|s| - 1])
  {
    TrimLeftShortens(s);
    TrimRightShortens(TrimLeft(s));
  }

  /** A request is malformed exactly when it is empty, begins or ends with white space, or holds a NUL. */
  lemma MalformedExactly(requested: string, allowRoot: bool)
    ensures Parse(requested, allowRoot) == Malformed <==>
              || requested == ""
              || requested[0] as int in WHITE_SPACE
              || requested[|requested| - 1] as int in WHITE_SPACE
              || exists i :: 0 <= i < |requested| && requested[i] as int == 0
  {
    if requested != "" {
      TrimmedExactly(requested);
      WhiteSpaceExactly(requested[0]);
      WhiteSpaceExactly(requested[|requested| - 1]);
    }
  }

  lemma {:induction false} TrimRightShortens(s: string)
    ensures |TrimRight(s)| <= |s|
    ensures s != "" && IsSpace(s[|s| - 1]) ==> |TrimRight(s)| < |s|
  {
    if s != "" && IsSpace(s[|s| - 1]) {
      TrimRightShortens(s[..|s| - 1]);
    }
  }

  lemma {:induction false} TrimLeftShortens(s: string)
    ensures |TrimLeft(s)| <= |s|
    ensures s != "" && IsSpace(s[0]) ==> |TrimLeft(s)| < |s|
  {
    if s != "" && IsSpace(s[0]) {
      TrimLeftShortens(s[1..]);
    }
  }

  // ---- what cleaning leaves of a relative path ----

  function Ups(cs: seq<string>): nat {
    if cs == [] then 0 else Ups(cs[..|cs| - 1]) + (if cs[|cs| - 1] == ".." then 1 else 0)
  }

  function Names(cs: seq<string>): nat {
    if cs == [] then 0 else Names(cs[..|cs| - 1]) + (if IsName(cs[|cs| - 1]) then 1 else 0)
  }

  /** Some prefix climbs higher than it descends. */
  ghost predicate Climbs(cs: seq<string>) {
    exists k :: 0 <= k <= |cs| && Ups(cs[..k]) > Names(cs[..k])
  }

  lemma {:induction false} FoldAppend(stack: seq<string>, rooted: bool, cs: seq<string>, c: string)
    ensures Fold(stack, rooted, cs + [c]) == Push(Fold(stack, rooted, cs), rooted, c)
    decreases |cs|
  {
    if cs == [] {
      assert cs + [c] == [c] && [c][1..] == [];
    } else {
      assert (cs + [c])[1..] == cs[1..] + [c] && (cs + [c])[0] == cs[0];
      FoldAppend(Push(stack, rooted, cs[0]), rooted, cs[1..], c);
    }
  }

  /** The shape of a cleaned relative stack: first the climbs, then names. */
  ghost predicate Shaped(stack: seq<string>, climbs: nat) {
    && climbs <= |stack|
    && (forall i :: 0 <= i < climbs ==> stack[i] == "..")
    && (forall i :: climbs <= i < |stack| ==> IsName(stack[i]))
  }

  /** Cleaning invents no component. */
  lemma {:induction false} FoldMembers(stack: seq<string>, rooted: bool, cs: seq<string>, c: string)
    requires c in Fold(stack, rooted, cs)
    ensures c in stack || c in cs
    decreases |cs|
  {
    if cs != [] {
      FoldMembers(Push(stack, rooted, cs[0]), rooted, cs[1..], c);
    }
  }

  /** One more component on a shaped stack. */
  lemma PushShape(stack: seq<string>, climbs: nat, c: string) returns (climbs': nat)
    requires Shaped(stack, climbs)
    ensures var stack' := Push(stack, false, c);
            && Shaped(stack', climbs')
            && |stack'| - 2 * climbs' == |stack| - 2 * climbs + (if IsName(c) then 1 else 0) - (if c == ".." then 1 else 0)
    ensures climbs' == climbs || (climbs' == climbs + 1 && |Push(stack, false, c)| == climbs')
  {
    climbs' := if c == ".." && |stack| == climbs then climbs + 1 else climbs;
  }

  /** Cleaning nets out: the stack starts with ".." exactly when some prefix climbs, and its length is what is left. */
  lemma {:induction false} StackShape(cs: seq<string>) returns (climbs: nat)
    ensures var stack := Fold([], false, cs);
            && Shaped(stack, climbs)
            && |stack| - 2 * climbs == Names(cs) - Ups(cs)
            && (climbs > 0 <==> Climbs(cs))
    decreases |cs|
  {
    if cs == [] {
      climbs := 0;
      assert forall k :: 0 <= k <= |cs| ==> cs[..k] == [];
    } else {
      var front, c := cs[..|cs| - 1], cs[|cs| - 1];
      assert cs == front + [c];
      FoldAppend([], false, front, c);
      var before := StackShape(front);
      climbs := PushShape(Fold([], false, front), before, c);
      ClimbsStep(front, c);
    }
  }

  lemma ClimbsStep(front: seq<string>, c: string)
    ensures Climbs(front + [c]) <==> Climbs(front) || Ups(front + [c]) > Names(front + [c])
  {
    var cs := front + [c];
    assert cs[..|cs|] == cs;
    forall k | 0 <= k <= |front| ensures cs[..k] == front[..k] {
    }
  }

  lemma JoinStart(stack: seq<string>)
    requires stack != [] && SlashFree(stack) && stack[0] != ""
    ensures !Rooted(Join(stack)) && Join(stack) != ""
    ensures (Join(stack) == ".." || "../" <= Join(stack)) <==> stack[0] == ".."
  {
    var s := Join(stack);
    assert stack[0][0] in stack[0] && '/' !in stack[0];
    if |stack| > 1 {
      assert s == stack[0] + "/" + Join(stack[1..]);
      assert s[|stack[0]|] == '/';
      assert forall i :: 0 <= i < |stack[0]| ==> s[i] == stack[0][i] && s[i] in stack[0];
      if "../" <= s {
        assert s[2] == '/' && s[0] == '.' && s[1] == '.';
        assert |stack[0]| == 2;
        assert stack[0] == "..";
      }
    } else {
      assert s == stack[0];
      assert forall i :: 0 <= i < |s| ==> s[i] != '/';
      assert !("../" <= s);
    }
  }

  /** An otherwise well-formed request is refused as escaping exactly when it is absolute or some prefix of it climbs out. */
  lemma EscapesExactlyWhenClimbing(requested: string, allowRoot: bool)
    ensures Parse(requested, allowRoot) == Escapes
            <==> Parse(requested, allowRoot) != Malformed && (Rooted(requested) || Climbs(Split(requested)))
  {
    if Rooted(requested) {
      assert Rooted(Clean(requested));
    } else {
      var cs := Split(requested);
      var stack := Fold([], false, cs);
      var climbs := StackShape(cs);
      StackMembers(cs);
      if stack != [] {
        JoinStart(stack);
      }
    }
  }

  lemma StackMembers(cs: seq<string>)
    requires SlashFree(cs)
    ensures SlashFree(Fold([], false, cs))
    ensures forall c :: c in Fold([], false, cs) ==> c in cs
  {
    var stack := Fold([], false, cs);
    forall c | c in stack ensures c in cs {
      FoldMembers([], false, cs, c);
    }
    assert forall i :: 0 <= i < |stack| ==> stack[i] in stack;
  }

  /** The stack an accepted request leaves. */
  lemma AcceptedStack(requested: string, allowRoot: bool) returns (stack: seq<string>)
    requires Parse(requested, allowRoot).Accepted?
    ensures !Rooted(requested) && stack == Fold([], false, Split(requested))
    ensures SlashFree(stack) && AllNames(stack)
    ensures Parse(requested, allowRoot).native == (if stack == [] then "." else Join(stack))
    ensures stack == [] ==> allowRoot
    ensures forall i :: 0 <= i < |stack| ==> '\0' !in stack[i]
  {
    var cs := Split(requested);
    assert Rooted(requested) ==> Rooted(Clean(requested));
    stack := Fold([], false, cs);
    var climbs := StackShape(cs);
    StackMembers(cs);
    if stack != [] {
      JoinStart(stack);
    }
    forall i | 0 <= i < |stack| ensures '\0' !in stack[i] {
      if '\0' in stack[i] {
        assert stack[i] in stack;
        var j :| 0 <= j < |cs| && cs[j] == stack[i];
        SplitChars(requested, j, '\0');
      }
    }
  }

  lemma {:induction false} SplitChars(s: string, j: nat, x: char)
    requires j < |Split(s)| && x in Split(s)[j]
    ensures x in s
  {
    if s != "" {
      var rest := Split(s[1..]);
      if s[0] == '/' {
        SplitChars(s[1..], j - 1, x);
      } else if j == 0 {
        if x != s[0] {
          SplitChars(s[1..], 0, x);
        }
      } else {
        SplitChars(s[1..], j, x);
      }
    }
  }

  /** An accepted path has no empty, "." or ".." component, except the lone root. */
  lemma AcceptedIsClean(requested: string, allowRoot: bool)
    requires Parse(requested, allowRoot).Accepted?
    ensures var native := Parse(requested, allowRoot).native;
            && !Rooted(native)
            && (native == "." || AllNames(Split(native)))
            && (native == "." ==> allowRoot)
  {
    var stack := AcceptedStack(requested, allowRoot);
    if stack != [] {
      SplitJoin(stack);
    }
  }

  lemma {:induction false} FoldOfNames(stack: seq<string>, names: seq<string>)
    requires AllNames(names)
    ensures Fold(stack, false, names) == stack + names
    decreases |names|
  {
    if names == [] {
      assert stack + names == stack;
    } else {
      FoldOfNames(stack + [names[0]], names[1..]);
      assert stack + [names[0]] + names[1..] == stack + names;
    }
  }

  lemma JoinedNamesAreClean(names: seq<string>)
    requires names != [] && SlashFree(names) && AllNames(names)
    ensures Clean(Join(names)) == Join(names) && !Rooted(Join(names))
  {
    JoinStart(names);
    SplitJoin(names);
    FoldOfNames([], names);
    assert [] + names == names;
  }

  lemma {:induction false} JoinChars(cs: seq<string>, x: char)
    requires x != '/' && forall i :: 0 <= i < |cs| ==> x !in cs[i]
    ensures x !in Join(cs)
  {
    if |cs| > 1 {
      JoinChars(cs[1..], x);
    }
  }

  /** A request names the root itself exactly when it descends and climbs equally often, and never climbs out. */
  lemma NamesRootExactly(requested: string, allowRoot: bool)
    ensures Parse(requested, allowRoot) == NamesRoot <==>
              && Parse(requested, allowRoot) != Malformed && !allowRoot && !Rooted(requested)
              && !Climbs(Split(requested)) && Names(Split(requested)) == Ups(Split(requested))
  {
    EscapesExactlyWhenClimbing(requested, allowRoot);
    var cs := Split(requested);
    var stack := Fold([], false, cs);
    var climbs := StackShape(cs);
    StackMembers(cs);
    if !Rooted(requested) && stack != [] && climbs == 0 {
      SplitJoin(stack);
      SplitPlain(".");
    }
  }

  // ---- cleaning keeps the meaning of a path ----

  /** Where one gets from a directory, itself named from the top, by following the components one by one. */
  function Walk(place: seq<string>, cs: seq<string>): seq<string> {
    if cs == [] then place
    else
      var before, c := Walk(place, cs[..|cs| - 1]), cs[|cs| - 1];
      if c == "" || c == "." then before
      else if c == ".." then (if before == [] then [] else before[..|before| - 1])
      else before + [c]
  }

  lemma {:induction false} WalkFollowsStack(place: seq<string>, cs: seq<string>)
    requires !Climbs(cs)
    ensures Walk(place, cs) == place + Fold([], false, cs) && AllNames(Fold([], false, cs))
    decreases |cs|
  {
    if cs != [] {
      var front, c := cs[..|cs| - 1], cs[|cs| - 1];
      assert cs == front + [c];
      ClimbsStep(front, c);
      FoldAppend([], false, front, c);
      WalkFollowsStack(place, front);
      var climbs := StackShape(front);
      var whole := StackShape(cs);
    }
  }

  /** From every directory the accepted path leads to where the request leads. */
  lemma CleaningKeepsMeaning(requested: string, allowRoot: bool, place: seq<string>)
    requires Parse(requested, allowRoot).Accepted?
    ensures var native := Parse(requested, allowRoot).native;
            && Walk(place, Split(native)) == Walk(place, Split(requested))
            && place <= Walk(place, Split(requested))
  {
    var stack := AcceptedStack(requested, allowRoot);
    EscapesExactlyWhenClimbing(requested, allowRoot);
    WalkFollowsStack(place, Split(requested));
    if stack == [] {
      SplitPlain(".");
      assert Walk(place, ["."]) == Walk(place, []);
    } else {
      SplitJoin(stack);
      FoldOfNames([], stack);
      NamesNeverClimb(stack);
      WalkFollowsStack(place, stack);
      assert [] + stack == stack;
    }
  }

  lemma {:induction false} NamesNeverClimb(names: seq<string>)
    requires AllNames(names)
    ensures !Climbs(names) && Ups(names) == 0
    decreases |names|
  {
    if names != [] {
      NamesNeverClimb(names[..|names| - 1]);
      ClimbsStep(names[..|names| - 1], names[|names| - 1]);
      assert names == names[..|names| - 1] + [names[|names| - 1]];
    }
  }

  /** Parsing an accepted path again returns it unchanged if and only if cleaning has not exposed surrounding whitespace. */
  lemma ReparseIsIdentity(requested: string, allowRoot: bool)
    requires Parse(requested, allowRoot).Accepted?
    ensures var native := Parse(requested, allowRoot).native;
            Parse(native, allowRoot) == Accepted(native) <==> native == TrimSpace(native)
  {
    var stack := AcceptedStack(requested, allowRoot);
    var native := Parse(requested, allowRoot).native;
    if stack == [] {
      SplitPlain(".");
    } else {
      JoinStart(stack);
      JoinedNamesAreClean(stack);
      JoinChars(stack, '\0');
    }
  }

  lemma CleanCancels(n: string, c: string)
    requires IsName(n) && IsName(c) && '/' !in n && '/' !in c
    ensures !Rooted(n + "/" + (".." + "/" + c))
    ensures Clean(n + "/" + (".." + "/" + c)) == c
  {
    var up := "..";
    SplitPlain(c);
    SplitFirst(up, c);
    SplitFirst(n, up + "/" + c);
    var s := n + "/" + (up + "/" + c);
    assert s[0] == n[0] && n[0] in n;
    assert [n] + ([up] + [c]) == [n, up] + [c] && [n, up] == [n] + [up] && [n] == [] + [n];
    FoldAppend([], false, [n, up], c);
    FoldAppend([], false, [n], up);
    FoldAppend([], false, [], n);
  }

  /** The condition matters: a climb in the middle can expose a leading space, and what is accepted is then not accepted again. */
  lemma ReparseCanFail(n: string, c: string)
    requires IsName(n) && IsName(c) && '/' !in n && '/' !in c && '\0' !in n && '\0' !in c
    requires !IsSpace(n[0]) && IsSpace(c[0]) && !IsSpace(c[|c| - 1])
    ensures Parse(n + "/" + (".." + "/" + c), false) == Accepted(c) && Parse(c, false) == Malformed
  {
    CleanCancels(n, c);
    var s := n + "/" + (".." + "/" + c);
    assert s[0] == n[0] && s[|s| - 1] == c[|c| - 1];
    TrimmedExactly(s);
    TrimmedExactly(c);
    JoinStart([c]);
  }

  lemma ReparseFailsConcretely()
    ensures Parse("a" + "/" + (".." + "/" + " b"), false) == Accepted(" b") && Parse(" b", false) == Malformed
  {
    ReparseCanFail("a", " b");
  }

  // ---- the symbolic-link check ----

  datatype LstatAnswer = Unavailable | SymbolicLink | Plain

  datatype LinkCheck = Passed | PathUnavailable | PathEscape

  /** filepath.Join of two elements. */
  function JoinPath(a: string, b: string): string {
    if a == "" then (if b == "" then "" else Clean(b))
    else if b == "" then Clean(a)
    else Clean(a + "/" + b)
  }

  /** Lstat of every prefix in turn; the first that is missing or a link decides. */
  ghost predicate FirstBad(names: seq<string>, lstat: string -> LstatAnswer, k: nat) {
    && 1 <= k <= |names| && lstat(Join(names[..k])) != Plain
    && forall i :: 1 <= i < k ==> lstat(Join(names[..i])) == Plain
  }

  method RejectSymlinkComponents(native: string, lstat: string -> LstatAnswer) returns (result: LinkCheck)
    requires native == "." || AllNames(Split(native))
    ensures native == "." ==> result == Passed
    ensures native != "." && result == Passed ==>
              forall k :: 1 <= k <= |Split(native)| ==> lstat(Join(Split(native)[..k])) == Plain
    ensures native != "." && result != Passed ==>
              exists k: nat :: FirstBad(Split(native), lstat, k)
                          && result == (if lstat(Join(Split(native)[..k])) == SymbolicLink then PathEscape else PathUnavailable)
  {
    if native == "." {
      return Passed;
    }
    var names := Split(native);
    assert AllNames(names);
    var current := "";
    var i := 0;
    while i < |names|
      invariant 0 <= i <= |names|
      invariant current == Join(names[..i])
      invariant i > 0 ==> current != ""
      invariant forall k :: 1 <= k <= i ==> lstat(Join(names[..k])) == Plain
    {
      ghost var longer := names[..i + 1];
      assert longer == names[..i] + [names[i]];
      if i > 0 {
        JoinAppend(names[..i], names[i]);
      }
      assert AllNames(longer);
      JoinedNamesAreClean(longer);
      JoinStart(longer);
      current := JoinPath(current, names[i]);
      assert current == Join(longer);
      var answer := lstat(current);
      if answer == Unavailable {
        assert FirstBad(names, lstat, i + 1);
        return PathUnavailable;
      }
      if answer == SymbolicLink {
        assert FirstBad(names, lstat, i + 1);
        return PathEscape;
      }
      i := i + 1;
    }
    result := Passed;
  }
}
