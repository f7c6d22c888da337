/**
 * The tokenizer of parameter expressions (`gather_escape`). A raw command-line
 * argument is cut into runs of literal text and single escaped characters; only
 * the four characters that make up separators (and the backslash itself) can be
 * escaped. Any other backslash pair, and a trailing lone backslash, stay literal.
 */
module Escapes {

  datatype Token = Text(text: string) | Escape(c: char)

  /** The characters a backslash escapes: the backslash and the three separator characters. */
  predicate Escapable(c: char) {
    c == '\\' || c == '=' || c == '@' || c == ':'
  }

  /** The characters of the raw argument that a token stands for. */
  function Render(t: Token): string {
    match t
    case Text(s) => s
    case Escape(c) => ['\\', c]
  }

  /** The characters of the raw argument that a token sequence stands for. */
  function Flatten(ts: seq<Token>): string {
    if ts == [] then [] else Flatten(ts[..|ts| - 1]) + Render(ts[|ts| - 1])
  }

  /** A token the tokenizer can produce: a non-empty text run, or an escape of an escapable character. */
  predicate ValidToken(t: Token) {
    match t
    case Text(s) => s != []
    case Escape(c) => Escapable(c)
  }

  /**
   * Every token is valid and no two text runs are adjacent, so a text run is
   * always as long as it can be.
   */
  predicate WellFormed(ts: seq<Token>) {
    && (forall i :: 0 <= i < |ts| ==> ValidToken(ts[i]))
    && (forall i :: 0 <= i < |ts| - 1 ==> !(ts[i].Text? && ts[i + 1].Text?))
  }

  /**
   * The tokens the scan produces from the state in which the pending text run
   * is `src[start..end]` and the next character to read is `src[end]`.
   */
  function Scan(src: string, start: nat, end: nat): seq<Token>
    requires start <= end <= |src|
    decreases |src| - end
  {
    if end == |src| then
      (if start != end then [Text(src[start..end])] else [])
    else if src[end] != '\\' then
      Scan(src, start, end + 1)
    else if end + 1 == |src| then
      [Text(src[start..end + 1])]
    else if Escapable(src[end + 1]) then
      (if start != end then [Text(src[start..end])] else []) + [Escape(src[end + 1])] + Scan(src, end + 2, end + 2)
    else
      Scan(src, start, end + 2)
  }

  /** The token sequence of a whole argument. */
  function Tokenize(src: string): seq<Token> {
    Scan(src, 0, 0)
  }

  /** `gather_escape`: one pass over the characters, with the pending text run between `start` and `end`. */
  method GatherEscape(src: string) returns (tokens: seq<Token>)
    ensures tokens == Tokenize(src)
    ensures Flatten(tokens) == src
    ensures WellFormed(tokens)
    ensures EscapesResolved(tokens)
  {
    tokens := [];
    var start, end := 0, 0;
    while true
      invariant start <= end <= |src|
      invariant tokens + Scan(src, start, end) == Tokenize(src)
      decreases |src| - end
    {
      if end == |src| {
        if start != end {
          tokens := tokens + [Text(src[start..end])];
        } else {
          assert tokens + [] == tokens;
        }
        break;
      }
      var c := src[end];
      if c != '\\' {
        end := end + 1;
        continue;
      }
      if end + 1 == |src| {
        tokens := tokens + [Text(src[start..end + 1])];
        break;
      }
      var d := src[end + 1];
      if Escapable(d) {
        ghost var rest := Scan(src, end + 2, end + 2);
        ghost var head := if start != end then [Text(src[start..end])] else [];
        assert Scan(src, start, end) == head + [Escape(d)] + rest;
        EmitStep(tokens, head, Escape(d), rest);
        if start != end {
          tokens := tokens + [Text(src[start..end])];
        }
        tokens := tokens + [Escape(d)];
        end := end + 2;
        start := end;
      } else {
        end := end + 2;
      }
    }
    TokenizeRoundTrip(src);
    TokenizeWellFormed(src);
    TokenizeResolved(src);
  }

  /** Moving a closed run and an escape from the pending scan to the emitted tokens. */
  lemma EmitStep(tokens: seq<Token>, head: seq<Token>, esc: Token, rest: seq<Token>)
    ensures tokens + (head + [esc] + rest) == (tokens + head + [esc]) + rest
  {
  }

  lemma {:induction false} FlattenAppend(a: seq<Token>, b: seq<Token>)
    ensures Flatten(a + b) == Flatten(a) + Flatten(b)
    decreases |b|
  {
    if b == [] {
      assert a + b == a;
    } else {
      var b', t := b[..|b| - 1], b[|b| - 1];
      assert (a + b)[..|a + b| - 1] == a + b' && (a + b)[|a + b| - 1] == t;
      calc {
        Flatten(a + b);
        Flatten(a + b') + Render(t);
        { FlattenAppend(a, b'); }
        Flatten(a) + Flatten(b') + Render(t);
        Flatten(a) + (Flatten(b') + Render(t));
      }
    }
  }

  lemma FlattenSnoc(ts: seq<Token>, t: Token)
    ensures Flatten(ts + [t]) == Flatten(ts) + Render(t)
  {
    assert (ts + [t])[..|ts|] == ts;
  }

  lemma FlattenSingle(t: Token)
    ensures Flatten([t]) == Render(t)
  {
    assert [t][..0] == [];
  }

  /** Reading the scan's tokens back gives exactly the unread part of the argument and the pending run. */
  lemma {:induction false} ScanRoundTrip(src: string, start: nat, end: nat)
    requires start <= end <= |src|
    ensures Flatten(Scan(src, start, end)) == src[start..]
    decreases |src| - end
  {
    if end == |src| {
      if start != end {
        FlattenSingle(Text(src[start..end]));
      }
    } else if src[end] != '\\' {
      ScanRoundTrip(src, start, end + 1);
    } else if end + 1 == |src| {
      FlattenSingle(Text(src[start..end + 1]));
    } else if Escapable(src[end + 1]) {
      ScanRoundTrip(src, end + 2, end + 2);
      EscapeStepRoundTrip(src, start, end, Scan(src, end + 2, end + 2));
    } else {
      ScanRoundTrip(src, start, end + 2);
    }
  }

  /** The step of ScanRoundTrip that closes the pending run and emits an escape. */
  lemma EscapeStepRoundTrip(src: string, start: nat, end: nat, rest: seq<Token>)
    requires start <= end && end + 1 < |src|
    requires src[end] == '\\'
    requires Flatten(rest) == src[end + 2..]
    ensures Flatten((if start != end then [Text(src[start..end])] else []) + [Escape(src[end + 1])] + rest) == src[start..]
  {
    var head := if start != end then [Text(src[start..end])] else [];
    var esc := Escape(src[end + 1]);
    var pending := src[start..end];
    var tail := src[end + 2..];
    assert src[start..] == pending + ['\\', src[end + 1]] + tail;
    assert Flatten(head + [esc]) == pending + ['\\', src[end + 1]] by {
      FlattenSnoc(head, esc);
      if start != end {
        FlattenSingle(Text(pending));
      } else {
        assert head == [];
      }
    }
    FlattenAppend(head + [esc], rest);
  }

  /** Concatenating the tokens, each escape written back as a backslash and its character, gives the argument. */
  lemma TokenizeRoundTrip(src: string)
    ensures Flatten(Tokenize(src)) == src
  {
    ScanRoundTrip(src, 0, 0);
    assert src[0..] == src;
  }

  lemma {:induction false} ScanWellFormed(src: string, start: nat, end: nat)
    requires start <= end <= |src|
    ensures WellFormed(Scan(src, start, end))
    decreases |src| - end
  {
    if end == |src| {
    } else if src[end] != '\\' {
      ScanWellFormed(src, start, end + 1);
    } else if end + 1 == |src| {
    } else if Escapable(src[end + 1]) {
      ScanWellFormed(src, end + 2, end + 2);
      var head := if start != end then [Text(src[start..end])] else [];
      EscapeStepWellFormed(head, src[end + 1], Scan(src, end + 2, end + 2));
    } else {
      ScanWellFormed(src, start, end + 2);
    }
  }

  /** A closed text run, if any, then an escape, then well-formed tokens, are well-formed. */
  lemma EscapeStepWellFormed(head: seq<Token>, c: char, rest: seq<Token>)
    requires head == [] || (|head| == 1 && head[0].Text? && head[0].text != [])
    requires Escapable(c) && WellFormed(rest)
    ensures WellFormed(head + [Escape(c)] + rest)
  {
    var ts := head + [Escape(c)] + rest;
    forall i | 0 <= i < |ts| ensures ValidToken(ts[i]) {
      if i >= |head| + 1 {
        assert ts[i] == rest[i - |head| - 1];
      }
    }
    forall i | 0 <= i < |ts| - 1 ensures !(ts[i].Text? && ts[i + 1].Text?) {
      if i >= |head| + 1 {
        assert ts[i] == rest[i - |head| - 1] && ts[i + 1] == rest[i - |head|];
      }
    }
  }

  /**
   * Every text run is non-empty, every escape is of one of the four escapable
   * characters, and text runs are never adjacent.
   */
  lemma TokenizeWellFormed(src: string)
    ensures WellFormed(Tokenize(src))
  {
    ScanWellFormed(src, 0, 0);
  }

  /**
   * Every backslash in the text run `t` is followed, inside `t`, by a character
   * that cannot be escaped; only in the last run may a lone backslash end it.
   */
  predicate TextResolved(t: string, last: bool) {
    forall j :: 0 <= j < |t| && t[j] == '\\' ==> (j + 1 < |t| && !Escapable(t[j + 1])) || (last && j == |t| - 1)
  }

  /** No text run hides an escape: each backslash pair in text is one that cannot be an escape. */
  predicate EscapesResolved(ts: seq<Token>) {
    forall i :: 0 <= i < |ts| && ts[i].Text? ==> TextResolved(ts[i].text, i == |ts| - 1)
  }

  /** Each backslash in the pending run `src[start..end]` is followed within it by a character that cannot be escaped. */
  predicate PendingResolved(src: string, start: nat, end: nat)
    requires start <= end <= |src|
  {
    forall j :: start <= j < end && src[j] == '\\' ==> j + 1 < end && !Escapable(src[j + 1])
  }

  /** The pending run `src[start..end]`, as a text run, keeps every escape pair out. */
  lemma PendingText(src: string, start: nat, end: nat, last: bool)
    requires start <= end <= |src| && PendingResolved(src, start, end)
    ensures TextResolved(src[start..end], last)
  {
    var t := src[start..end];
    forall j | 0 <= j < |t| && t[j] == '\\' ensures j + 1 < |t| && !Escapable(t[j + 1]) {
      assert t[j] == src[start + j];
      assert t[j + 1] == src[start + j + 1];
    }
  }

  lemma {:induction false} ScanResolved(src: string, start: nat, end: nat)
    requires start <= end <= |src| && PendingResolved(src, start, end)
    ensures EscapesResolved(Scan(src, start, end))
    decreases |src| - end
  {
    if end == |src| {
      if start != end {
        PendingText(src, start, end, true);
      }
    } else if src[end] != '\\' {
      ScanResolved(src, start, end + 1);
    } else if end + 1 == |src| {
      var t := src[start..end + 1];
      forall j | 0 <= j < |t| - 1 && t[j] == '\\' ensures j + 1 < |t| && !Escapable(t[j + 1]) {
        assert t[j] == src[start + j];
        assert t[j + 1] == src[start + j + 1];
      }
    } else if Escapable(src[end + 1]) {
      ScanResolved(src, end + 2, end + 2);
      var head := if start != end then [Text(src[start..end])] else [];
      if start != end {
        PendingText(src, start, end, false);
      }
      EscapeStepResolved(head, src[end + 1], Scan(src, end + 2, end + 2));
    } else {
      ScanResolved(src, start, end + 2);
    }
  }

  /** A closed text run without escape pairs, then an escape, then resolved tokens, are resolved. */
  lemma EscapeStepResolved(head: seq<Token>, c: char, rest: seq<Token>)
    requires head == [] || (|head| == 1 && head[0].Text? && TextResolved(head[0].text, false))
    requires EscapesResolved(rest)
    ensures EscapesResolved(head + [Escape(c)] + rest)
  {
    var ts := head + [Escape(c)] + rest;
    forall i | 0 <= i < |ts| && ts[i].Text? ensures TextResolved(ts[i].text, i == |ts| - 1) {
      if i >= |head| + 1 {
        assert ts[i] == rest[i - |head| - 1];
      } else {
        assert ts[i] == head[0];
      }
    }
  }

  /**
   * A backslash pair is an escape exactly when its second character is
   * escapable: inside a text run every backslash is followed by a character
   * that is not, and only a lone backslash at the very end of the argument
   * ends a text run.
   */
  lemma TokenizeResolved(src: string)
    ensures EscapesResolved(Tokenize(src))
  {
    ScanResolved(src, 0, 0);
  }

  /** The argument holds no backslash followed by an escapable character. */
  predicate NoEscapePairs(src: string) {
    forall i :: 0 <= i < |src| - 1 && src[i] == '\\' ==> !Escapable(src[i + 1])
  }

  lemma {:induction false} ScanPlain(src: string, start: nat, end: nat)
    requires start <= end <= |src|
    requires NoEscapePairs(src)
    ensures Scan(src, start, end) == if start < |src| then [Text(src[start..])] else []
    decreases |src| - end
  {
    if end < |src| {
      if src[end] != '\\' {
        ScanPlain(src, start, end + 1);
      } else if end + 1 < |src| {
        assert !Escapable(src[end + 1]);
        ScanPlain(src, start, end + 2);
      } else {
        assert src[start..end + 1] == src[start..];
      }
    } else {
      assert src[start..end] == src[start..];
    }
  }

  /**
   * A backslash before any other character, or a trailing lone backslash, stays
   * in the text: an argument without escape pairs is a single text run.
   */
  lemma PlainArgumentIsOneText(src: string)
    requires src != []
    requires NoEscapePairs(src)
    ensures Tokenize(src) == [Text(src)]
  {
    ScanPlain(src, 0, 0);
    assert src[0..] == src;
  }
}
