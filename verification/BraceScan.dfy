/** The brace scan of extractJsonFromLlmOutput in security/output-validator.ts, against the grammar
    of what it looks for: Obj ::= '{' (non-brace | Obj)* '}'. */
module BraceScan {
  import opened Seqs

  // ---------------------------------------------------------------- the grammar

  /** Derivations of (non-brace | Obj)*. */
  datatype Parts = End | Plain(c: char, rest: Parts) | Nested(inner: Parts, rest: Parts)

  predicate IsBrace(c: char) {
    c == '{' || c == '}'
  }

  predicate WellFormed(ps: Parts) {
    match ps
    case End => true
    case Plain(c, rest) => !IsBrace(c) && WellFormed(rest)
    case Nested(inner, rest) => WellFormed(inner) && WellFormed(rest)
  }

  function TextOf(ps: Parts): string {
    match ps
    case End => ""
    case Plain(c, rest) => [c] + TextOf(rest)
    case Nested(inner, rest) => "{" + TextOf(inner) + "}" + TextOf(rest)
  }

  /** s derives from Obj. */
  ghost predicate Derives(s: string) {
    exists ps: Parts :: WellFormed(ps) && "{" + TextOf(ps) + "}" == s
  }

  // ---------------------------------------------------------------- depth

  function Weight(c: char): int {
    if c == '{' then 1 else if c == '}' then -1 else 0
  }

  function Depth(s: string): int {
    if s == "" then 0 else Depth(s[..|s| - 1]) + Weight(s[|s| - 1])
  }

  lemma {:induction false} DepthAppend(a: string, b: string)
    ensures Depth(a + b) == Depth(a) + Depth(b)
  {
    if b == "" {
      assert a + b == a;
    } else {
      assert (a + b)[..|a + b| - 1] == a + b[..|b| - 1];
      DepthAppend(a, b[..|b| - 1]);
    }
  }

  lemma DepthOfOne(c: char)
    ensures Depth([c]) == Weight(c)
  {
    assert [c][..0] == "";
  }

  /** Nothing is closed that was not opened, and everything is closed in the end. */
  ghost predicate Level(s: string) {
    Depth(s) == 0 && forall j :: 0 <= j <= |s| ==> Depth(s[..j]) >= 0
  }

  /** What the scan stops at: an opening brace that is closed by the last character and not before. */
  ghost predicate Closes(s: string) {
    s != "" && s[0] == '{' && Depth(s) == 0 && forall j :: 0 < j < |s| ==> Depth(s[..j]) > 0
  }

  // ---------------------------------------------------------------- derived texts close

  lemma LevelAppend(a: string, b: string)
    requires Level(a) && Level(b)
    ensures Level(a + b)
  {
    DepthAppend(a, b);
    forall j | 0 <= j <= |a + b|
      ensures Depth((a + b)[..j]) >= 0
    {
      if j <= |a| {
        assert (a + b)[..j] == a[..j];
      } else {
        assert (a + b)[..j] == a + b[..j - |a|];
        DepthAppend(a, b[..j - |a|]);
      }
    }
  }

  lemma BracedCloses(s: string)
    requires Level(s)
    ensures Closes("{" + s + "}")
  {
    var t := "{" + s + "}";
    DepthOfOne('{');
    DepthOfOne('}');
    DepthAppend("{", s);
    DepthAppend("{" + s, "}");
    forall j | 0 < j < |t|
      ensures Depth(t[..j]) > 0
    {
      assert t[..j] == "{" + s[..j - 1];
      DepthAppend("{", s[..j - 1]);
    }
  }

  lemma ClosesIsLevel(s: string)
    requires Closes(s)
    ensures Level(s)
  {
    assert s[..0] == "" && s[..|s|] == s;
  }

  lemma {:induction false} PartsAreLevel(ps: Parts)
    requires WellFormed(ps)
    ensures Level(TextOf(ps))
  {
    match ps
    case End =>
    case Plain(c, rest) =>
      PartsAreLevel(rest);
      DepthOfOne(c);
      assert [c][..0] == "" && [c][..1] == [c];
      LevelAppend([c], TextOf(rest));
    case Nested(inner, rest) =>
      PartsAreLevel(inner);
      PartsAreLevel(rest);
      BracedCloses(TextOf(inner));
      ClosesIsLevel("{" + TextOf(inner) + "}");
      LevelAppend("{" + TextOf(inner) + "}", TextOf(rest));
  }

  // ---------------------------------------------------------------- what closes is derived

  lemma DepthOfPrefix(s: string, i: nat, j: nat)
    requires i <= j <= |s|
    ensures Depth(s[..j]) == Depth(s[..i]) + Depth(s[i..j])
  {
    assert s[..j] == s[..i] + s[i..j];
    DepthAppend(s[..i], s[i..j]);
  }

  /** From the first place where an opened brace is closed, the rest is level on its own. */
  lemma LevelRest(s: string, k: nat)
    requires Level(s) && k <= |s| && Depth(s[..k]) == 0
    ensures Level(s[k..])
  {
    assert s[..|s|] == s && s[k..|s|] == s[k..];
    DepthOfPrefix(s, k, |s|);
    forall j | 0 <= j <= |s| - k
      ensures Depth(s[k..][..j]) >= 0
    {
      assert s[k..][..j] == s[k..k + j];
      DepthOfPrefix(s, k, k + j);
    }
  }

  lemma {:induction false} FirstClose(s: string, i: nat) returns (k: nat)
    requires Level(s) && 0 < i <= |s| && forall j :: 0 < j < i ==> Depth(s[..j]) > 0
    ensures i <= k <= |s| && Depth(s[..k]) == 0 && forall j :: 0 < j < k ==> Depth(s[..j]) > 0
    decreases |s| - i
  {
    assert s[..|s|] == s;
    if Depth(s[..i]) == 0 {
      k := i;
    } else {
      k := FirstClose(s, i + 1);
    }
  }

  /** Between the braces of a text that closes, all is level. */
  lemma InsideIsLevel(s: string)
    requires Closes(s)
    ensures |s| >= 2 && s == "{" + s[1..|s| - 1] + "}" && Level(s[1..|s| - 1])
  {
    var n := |s|;
    DepthOfOne(s[0]);
    assert s[..1] == [s[0]] && s[..n] == s;
    DepthOfPrefix(s, 1, n - 1);
    assert Depth(s) == Depth(s[..n - 1]) + Weight(s[n - 1]);
    var inside := s[1..n - 1];
    forall j | 0 <= j <= |inside|
      ensures Depth(inside[..j]) >= 0
    {
      assert inside[..j] == s[1..1 + j];
      DepthOfPrefix(s, 1, 1 + j);
    }
  }

  /** A level text is empty, or starts with a plain character or with a text that closes. */
  lemma FirstPart(s: string) returns (k: nat)
    requires Level(s) && s != ""
    ensures 0 < k <= |s| && Level(s[k..])
    ensures if IsBrace(s[0]) then Closes(s[..k]) else k == 1
  {
    DepthOfOne(s[0]);
    assert s[..1] == [s[0]];
    assert Depth(s[..1]) >= 0;
    if !IsBrace(s[0]) {
      k := 1;
    } else {
      k := FirstClose(s, 1);
      forall j | 0 < j < k
        ensures Depth(s[..k][..j]) > 0
      {
        assert s[..k][..j] == s[..j];
      }
    }
    LevelRest(s, k);
  }

  lemma {:induction false} LevelIsParsed(s: string) returns (ps: Parts)
    requires Level(s)
    ensures WellFormed(ps) && TextOf(ps) == s
    decreases |s|
  {
    if s == "" {
      ps := End;
    } else {
      var k := FirstPart(s);
      var head := s[..k];
      var rest := LevelIsParsed(s[k..]);
      assert s == head + s[k..];
      if IsBrace(s[0]) {
        InsideIsLevel(head);
        var inner := LevelIsParsed(head[1..k - 1]);
        ps := Nested(inner, rest);
      } else {
        ps := Plain(s[0], rest);
      }
    }
  }

  /** A text derives from the grammar exactly if its first brace is closed by its last character. */
  lemma DerivesIffCloses(s: string)
    ensures Derives(s) <==> Closes(s)
  {
    if Derives(s) {
      var ps: Parts :| WellFormed(ps) && "{" + TextOf(ps) + "}" == s;
      PartsAreLevel(ps);
      BracedCloses(TextOf(ps));
    }
    if Closes(s) {
      InsideIsLevel(s);
      var ps := LevelIsParsed(s[1..|s| - 1]);
      assert "{" + TextOf(ps) + "}" == s;
    }
  }

  // ---------------------------------------------------------------- the scan

  /** Position of the first opening brace, or the length of the text. */
  function FirstBrace(s: string): (i: nat)
    ensures i <= |s| && '{' !in s[..i] && (i < |s| ==> s[i] == '{')
  {
    if s == "" || s[0] == '{' then 0
    else
      assert s[..1 + FirstBrace(s[1..])] == [s[0]] + s[1..][..FirstBrace(s[1..])];
      1 + FirstBrace(s[1..])
  }

  lemma OthersDoNotClose(s: string, start: nat, end: nat, other: nat)
    requires start <= end <= |s| && start <= other <= |s| && other != end && Closes(s[start..end])
    ensures !Closes(s[start..other])
  {
    if other < end {
      assert s[start..end][..other - start] == s[start..other];
    } else {
      assert s[start..other][..end - start] == s[start..end];
    }
  }

  /** The slice from start to end derives from the grammar, and no other slice from start does. */
  ghost predicate OnlyDerived(s: string, start: nat, end: nat)
    requires start <= |s|
  {
    start <= end <= |s| && Derives(s[start..end]) && forall other :: start <= other <= |s| && Derives(s[start..other]) ==> other == end
  }

  /** No slice from start that ends after it, up to end, has closed what it opened. */
  ghost predicate StaysOpen(s: string, start: nat, end: nat)
    requires start <= end <= |s|
  {
    forall j :: start < j <= end ==> Depth(s[start..j]) > 0
  }

  lemma DepthStep(s: string, start: nat, i: nat)
    requires start <= i < |s|
    ensures Depth(s[start..i + 1]) == Depth(s[start..i]) + Weight(s[i])
    ensures StaysOpen(s, start, i) && Depth(s[start..i + 1]) > 0 ==> StaysOpen(s, start, i + 1)
  {
    assert s[start..i + 1][..i - start] == s[start..i];
  }

  /** trimmed is the text without surrounding white space, and codeBlock what the fenced-block
      pattern matched in it, if anything. Without a fenced block the result is the one slice that
      starts at the first opening brace and derives from the grammar, and None exactly if there is
      none. */
  method ExtractJson(trimmed: string, codeBlock: Option<string>) returns (r: Option<string>)
    ensures codeBlock.Some? ==> r == codeBlock
    ensures codeBlock.None? && r.Some? ==>
              exists end: nat :: OnlyDerived(trimmed, FirstBrace(trimmed), end) && r.value == trimmed[FirstBrace(trimmed)..end]
    ensures codeBlock.None? && r.None? ==>
              forall end :: FirstBrace(trimmed) <= end <= |trimmed| ==> !Derives(trimmed[FirstBrace(trimmed)..end])
  {
    if codeBlock.Some? {
      return codeBlock;
    }
    var braceStart := 0;
    while braceStart < |trimmed| && trimmed[braceStart] != '{'
      invariant braceStart <= |trimmed| && braceStart + FirstBrace(trimmed[braceStart..]) == FirstBrace(trimmed)
    {
      assert trimmed[braceStart..][1..] == trimmed[braceStart + 1..];
      braceStart := braceStart + 1;
    }
    assert braceStart == FirstBrace(trimmed) && (braceStart < |trimmed| ==> trimmed[braceStart] == '{');
    var depth := 0;
    for i := braceStart to |trimmed|
      invariant depth == Depth(trimmed[braceStart..i])
      invariant StaysOpen(trimmed, braceStart, i)
    {
      DepthStep(trimmed, braceStart, i);
      var c := trimmed[i];
      if c == '{' {
        depth := depth + 1;
      } else if c == '}' {
        depth := depth - 1;
        if depth == 0 {
          StopsRight(trimmed, braceStart, i + 1);
          return Some(trimmed[braceStart..i + 1]);
        }
      }
    }
    NeverCloses(trimmed, braceStart);
    return None;
  }

  lemma StopsRight(s: string, start: nat, end: nat)
    requires start < end <= |s| && s[start] == '{' && Depth(s[start..end]) == 0 && StaysOpen(s, start, end - 1)
    ensures OnlyDerived(s, start, end)
  {
    forall j | 0 < j < end - start
      ensures Depth(s[start..end][..j]) > 0
    {
      assert s[start..end][..j] == s[start..start + j];
    }
    DerivesIffCloses(s[start..end]);
    forall other | start <= other <= |s| && other != end
      ensures !Derives(s[start..other])
    {
      OthersDoNotClose(s, start, end, other);
      DerivesIffCloses(s[start..other]);
    }
  }

  lemma NeverCloses(s: string, start: nat)
    requires start <= |s| && StaysOpen(s, start, |s|)
    ensures forall end :: start <= end <= |s| ==> !Derives(s[start..end])
  {
    forall end | start <= end <= |s|
      ensures !Derives(s[start..end])
    {
      DerivesIffCloses(s[start..end]);
    }
  }
}
