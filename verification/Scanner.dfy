/** Extracting the answer from a model response: the balanced-object scanner and what is built on it. */
module Scanner {
  import opened Common

  // ---------------------------------------------------------------- string-aware brace depth

  datatype Lex = Lex(depth: int, inString: bool, escaped: bool)

  const START: Lex := Lex(0, false, false)

  function Next(l: Lex, c: char): Lex {
    if l.escaped then l.(escaped := false)
    else if l.inString && c == '\\' then l.(escaped := true)
    else if c == '"' then l.(inString := !l.inString)
    else if l.inString then l
    else if c == '{' then l.(depth := l.depth + 1)
    else if c == '}' then l.(depth := l.depth - 1)
    else l
  }

  function Fold(l: Lex, s: string): Lex {
    if s == "" then l else Next(Fold(l, s[..|s| - 1]), s[|s| - 1])
  }

  lemma {:induction false} FoldConcat(l: Lex, a: string, b: string)
    ensures Fold(l, a + b) == Fold(Fold(l, a), b)
    decreases |b|
  {
    if b == "" {
      assert a + b == a;
    } else {
      FoldConcat(l, a, b[..|b| - 1]);
      assert (a + b)[..|a + b| - 1] == a + b[..|b| - 1];
    }
  }

  /** The lexer after `s[start..end]`. */
  function State(s: string, start: nat, end: nat): Lex
    requires start <= end <= |s|
  {
    Fold(START, s[start..end])
  }

  function Depth(s: string, start: nat, end: nat): int
    requires start <= end <= |s|
  {
    State(s, start, end).depth
  }

  /** `s[start..end]` is the shortest string-aware balanced block that opens at `start`. */
  ghost predicate Closes(s: string, start: nat, end: nat) {
    && start < end <= |s| && s[start] == '{' && Depth(s, start, end) == 0
    && forall k :: start < k < end ==> Depth(s, start, k) > 0
  }

  lemma ClosesOnce(s: string, start: nat, end: nat, end': nat)
    requires Closes(s, start, end) && Closes(s, start, end')
    ensures end == end'
  {
  }

  datatype Span = Span(start: nat, end: nat)

  ghost predicate Inside(p: int, spans: seq<Span>) {
    exists i :: 0 <= i < |spans| && spans[i].start <= p < spans[i].end
  }

  ghost predicate Ordered(spans: seq<Span>) {
    forall i, j :: 0 <= i < j < |spans| ==> spans[i].end <= spans[j].start
  }

  ghost predicate Blocks(s: string, spans: seq<Span>) {
    forall i :: 0 <= i < |spans| ==> Closes(s, spans[i].start, spans[i].end)
  }

  ghost predicate Closable(s: string, p: nat) { exists e: nat :: Closes(s, p, e) }

  /** Up to `limit`, every opening brace outside the spans is one that nothing closes. */
  ghost predicate CompleteUpTo(s: string, spans: seq<Span>, limit: nat) {
    forall p: nat :: p < limit && Closable(s, p) ==> Inside(p, spans)
  }

  /** The candidates of a response: disjoint minimal blocks from left to right, and no block missed. */
  ghost predicate Candidates(s: string, spans: seq<Span>) {
    Blocks(s, spans) && Ordered(spans) && CompleteUpTo(s, spans, |s|)
  }

  /** That description has one solution, so it says exactly what the scanner yields. */
  lemma CandidatesUnique(s: string, a: seq<Span>, b: seq<Span>)
    requires Candidates(s, a) && Candidates(s, b)
    ensures a == b
  {
    SamePrefix(s, a, b, |a|);
    SamePrefix(s, b, a, |b|);
  }

  lemma {:induction false} SamePrefix(s: string, a: seq<Span>, b: seq<Span>, i: nat)
    requires Candidates(s, a) && Candidates(s, b) && i <= |a|
    ensures i <= |b| && forall j :: 0 <= j < i ==> a[j] == b[j]
  {
    if i > 0 {
      SamePrefix(s, a, b, i - 1);
      NextSame(s, a, b, i - 1);
    }
  }

  lemma NextSame(s: string, a: seq<Span>, b: seq<Span>, i: nat)
    requires Candidates(s, a) && Candidates(s, b) && i < |a|
    requires i <= |b| && forall j :: 0 <= j < i ==> a[j] == b[j]
    ensures i < |b| && a[i] == b[i]
  {
    StartsNoLater(s, a, b, i);
    StartsNoLater(s, b, a, i);
    assert Closes(s, a[i].start, a[i].end) && Closes(s, b[i].start, b[i].end);
    ClosesOnce(s, a[i].start, a[i].end, b[i].end);
  }

  lemma StartsNoLater(s: string, a: seq<Span>, b: seq<Span>, i: nat)
    requires Candidates(s, a) && Candidates(s, b) && i < |a|
    requires i <= |b| && forall j :: 0 <= j < i ==> a[j] == b[j]
    ensures i < |b| && b[i].start <= a[i].start
  {
    assert Closes(s, a[i].start, a[i].end) && Closable(s, a[i].start);
    var j :| 0 <= j < |b| && b[j].start <= a[i].start < b[j].end;
    assert j >= i;
    if i < j { assert b[i].end <= b[j].start && Closes(s, b[i].start, b[i].end); }
  }

  // ---------------------------------------------------------------- the scanner

  lemma StateSnoc(s: string, start: nat, k: nat)
    requires start <= k < |s|
    ensures State(s, start, k + 1) == Next(State(s, start, k), s[k])
  {
    assert s[start..k + 1][..k - start] == s[start..k];
  }

  /** The depth has been positive ever since the brace at `start`. */
  ghost predicate Open(s: string, start: nat, index: nat) {
    start <= index <= |s| && forall k :: start < k <= index ==> Depth(s, start, k) > 0
  }

  lemma OpenNeverCloses(s: string, start: nat, index: nat)
    requires Open(s, start, index)
    ensures forall e: nat :: e <= index ==> !Closes(s, start, e)
    ensures index < |s| && s[start] == '{' && Depth(s, start, index + 1) == 0 ==> Closes(s, start, index + 1)
    ensures index < |s| && Depth(s, start, index + 1) > 0 ==> Open(s, start, index + 1)
  {
  }

  /** The inner loop: run from one opening brace until its depth returns to zero. */
  method ScanBlock(s: string, start: nat) returns (end: Option<nat>)
    requires start < |s| && s[start] == '{'
    ensures end.Some? ==> Closes(s, start, end.value)
    ensures end.None? ==> !Closable(s, start)
  {
    var depth, inString, escaped := 0, false, false;
    var index := start;
    while index < |s|
      invariant start <= index <= |s|
      invariant Lex(depth, inString, escaped) == State(s, start, index)
      invariant Open(s, start, index)
      invariant if index == start then Lex(depth, inString, escaped) == START else depth > 0
    {
      var c := s[index];
      StateSnoc(s, start, index);
      OpenNeverCloses(s, start, index);
      index := index + 1;
      if escaped {
        escaped := false;
      } else if inString && c == '\\' {
        escaped := true;
      } else if c == '"' {
        inString := !inString;
      } else if !inString {
        if c == '{' {
          depth := depth + 1;
        } else if c == '}' {
          depth := depth - 1;
          if depth == 0 { return Some(index); }
        }
      }
    }
    OpenNeverCloses(s, start, |s|);
    return None;
  }

  method IterateBalancedObjects(s: string) returns (spans: seq<Span>)
    ensures Candidates(s, spans)
  {
    spans := [];
    var cursor := 0;
    while cursor < |s|
      invariant cursor <= |s|
      invariant Blocks(s, spans) && Ordered(spans) && forall i :: 0 <= i < |spans| ==> spans[i].end <= cursor
      invariant CompleteUpTo(s, spans, cursor)
    {
      if s[cursor] != '{' {
        cursor := cursor + 1;
      } else {
        var end := ScanBlock(s, cursor);
        if end.Some? {
          CompleteExtends(s, spans, cursor, end.value);
          spans := spans + [Span(cursor, end.value)];
          cursor := end.value;
        } else {
          cursor := cursor + 1;
        }
      }
    }
  }

  lemma CompleteExtends(s: string, spans: seq<Span>, start: nat, end: nat)
    requires CompleteUpTo(s, spans, start) && start < end
    ensures CompleteUpTo(s, spans + [Span(start, end)], end)
  {
    var longer := spans + [Span(start, end)];
    forall p: nat | p < end && Closable(s, p) ensures Inside(p, longer) {
      if p < start {
        assert Inside(p, spans);
        var i :| 0 <= i < |spans| && spans[i].start <= p < spans[i].end;
        assert longer[i] == spans[i];
      } else {
        assert longer[|spans|] == Span(start, end);
      }
    }
  }
}
