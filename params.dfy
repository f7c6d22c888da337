/**
 * Parameter expressions (`parse_param`): a token sequence from the tokenizer is
 * searched for the seven separators, the leftmost and then longest one in the
 * first text run that holds any wins, and key and value are stitched around
 * its first occurrence. The separator decides the kind of parameter.
 */
module Params {
  import opened Results
  import opened Errors
  import opened Escapes

  datatype Separator = Colon | Equal | At | ColonEqual | EqualEqual | EqualAt | Snail

  /** How each separator is spelled on the command line. */
  function Literal(sep: Separator): string {
    match sep
    case Colon => ":"
    case Equal => "="
    case At => "@"
    case ColonEqual => ":="
    case EqualEqual => "=="
    case EqualAt => "=@"
    case Snail => ":=@"
  }

  /** `Separator::try_from`: the separator a string spells, if it spells one. */
  function TryFrom(value: string): (r: Option<Separator>)
    ensures r.Some? ==> Literal(r.value) == value
    ensures forall sep :: Literal(sep) == value ==> r == Some(sep)
  {
    if value == ":" then Some(Colon)
    else if value == "=" then Some(Equal)
    else if value == "@" then Some(At)
    else if value == ":=" then Some(ColonEqual)
    else if value == "==" then Some(EqualEqual)
    else if value == "=@" then Some(EqualAt)
    else if value == ":=@" then Some(Snail)
    else None
  }

  /**
   * A classified parameter. Every kind carries a key and a value; for the three
   * file kinds the value is a file name, for RawJsonData it is JSON text.
   */
  datatype Parameter =
    | Header(key: string, value: string)
    | Data(key: string, value: string)
    | RawJsonData(key: string, value: string)
    | Query(key: string, value: string)
    | FormFile(key: string, value: string)
    | DataFile(key: string, value: string)
    | RawJsonDataFile(key: string, value: string)

  /** `is_form_file` */
  predicate IsFormFile(p: Parameter) {
    match p
    case FormFile(_, _) => true
    case _ => false
  }

  /** `is_data`: the parameter contributes to the body rather than to the headers or the URL. */
  predicate IsData(p: Parameter) {
    match p
    case Header(_, _) => false
    case Query(_, _) => false
    case _ => true
  }

  /** The separator that produces a parameter of this kind. */
  function SeparatorOf(p: Parameter): Separator {
    match p
    case Header(_, _) => Colon
    case Data(_, _) => Equal
    case RawJsonData(_, _) => ColonEqual
    case Query(_, _) => EqualEqual
    case FormFile(_, _) => At
    case DataFile(_, _) => EqualAt
    case RawJsonDataFile(_, _) => Snail
  }

  /** The parameter a separator builds from a key and a value. */
  function Classify(sep: Separator, key: string, value: string): (p: Parameter)
    ensures SeparatorOf(p) == sep && p.key == key && p.value == value
  {
    match sep
    case At => FormFile(key, value)
    case Equal => Data(key, value)
    case Colon => Header(key, value)
    case ColonEqual => RawJsonData(key, value)
    case EqualEqual => Query(key, value)
    case EqualAt => DataFile(key, value)
    case Snail => RawJsonDataFile(key, value)
  }

  /** Only `@` makes a form file; only `:` and `==` make parameters that are not data. */
  lemma ClassifiersBySeparator(p: Parameter)
    ensures IsFormFile(p) <==> Literal(SeparatorOf(p)) == "@"
    ensures !IsData(p) <==> Literal(SeparatorOf(p)) in {":", "=="}
  {
  }

  /** `pat` occurs in `s` starting at offset `n`. */
  predicate OccursAt(s: string, pat: string, n: nat) {
    n + |pat| <= |s| && s[n..n + |pat|] == pat
  }

  function FindFrom(s: string, pat: string, from: nat): (r: Option<nat>)
    ensures r.Some? ==> from <= r.value && OccursAt(s, pat, r.value)
    ensures forall m :: from <= m && OccursAt(s, pat, m) ==> r.Some? && r.value <= m
    decreases |s| - from
  {
    if from + |pat| > |s| then None
    else if s[from..from + |pat|] == pat then Some(from)
    else FindFrom(s, pat, from + 1)
  }

  /** `str::find`: the offset of the first occurrence of `pat` in `s`, if any. */
  function Find(s: string, pat: string): (r: Option<nat>)
    ensures r.Some? ==> OccursAt(s, pat, r.value)
    ensures forall m :: OccursAt(s, pat, m) ==> r.Some? && r.value <= m
  {
    FindFrom(s, pat, 0)
  }

  /** The separators in the order `parse_param` searches for them. */
  const SearchOrder: seq<string> := [":=@", "=@", "==", ":=", "@", "=", ":"]

  lemma SearchOrderSpellsSeparators(sep: string)
    requires sep in SearchOrder
    ensures TryFrom(sep).Some?
  {
    assert Literal(Snail) == SearchOrder[0] && Literal(EqualAt) == SearchOrder[1];
    assert Literal(EqualEqual) == SearchOrder[2] && Literal(ColonEqual) == SearchOrder[3];
    assert Literal(At) == SearchOrder[4] && Literal(Equal) == SearchOrder[5] && Literal(Colon) == SearchOrder[6];
  }

  /** Some separator occurs somewhere in `s`. */
  ghost predicate HasSeparator(s: string) {
    exists sep, n :: sep in SearchOrder && OccursAt(s, sep, n)
  }

  /** A text run that holds a separator; escapes are never searched. */
  ghost predicate Searchable(t: Token) {
    t.Text? && HasSeparator(t.text)
  }

  /** Token `i` is the first text run that holds a separator. */
  ghost predicate IsFirstMatch(ts: seq<Token>, i: nat) {
    i < |ts| && Searchable(ts[i]) && forall j :: 0 <= j < i ==> !Searchable(ts[j])
  }

  /**
   * `sep` occurs at `n` in `s`, no separator occurs further left, and no longer
   * separator occurs at `n`.
   */
  ghost predicate LeftmostLongest(s: string, sep: string, n: nat) {
    && sep in SearchOrder
    && OccursAt(s, sep, n)
    && forall other, m :: other in SearchOrder && OccursAt(s, other, m) ==> n < m || (n == m && |other| <= |sep|)
  }

  /** There is only ever one winner. */
  lemma LeftmostLongestUnique(s: string, a: string, n: nat, b: string, m: nat)
    requires LeftmostLongest(s, a, n) && LeftmostLongest(s, b, m)
    ensures a == b && n == m
  {
    assert n == m && |a| == |b|;
    assert a == s[n..n + |a|] == b;
  }

  /**
   * The parameter is split at the winning separator: its key is what precedes
   * the separator's first occurrence in the first text run holding one, and its
   * value what follows, each with the neighbouring tokens written back in full.
   */
  ghost predicate WinningSplit(ts: seq<Token>, p: Parameter) {
    var sep := Literal(SeparatorOf(p));
    exists i: nat, n: nat ::
      && IsFirstMatch(ts, i)
      && LeftmostLongest(ts[i].text, sep, n)
      && p.key == Flatten(ts[..i]) + ts[i].text[..n]
      && p.value == ts[i].text[n + |sep|..] + Flatten(ts[i + 1..])
  }

  /** The (offset, separator) pairs the search of the first `k` separators records for a text run. */
  function Matches(s: string, k: nat): seq<(nat, string)>
    requires k <= |SearchOrder|
  {
    if k == 0 then []
    else
      var sep := SearchOrder[k - 1];
      Matches(s, k - 1) + (match Find(s, sep) case Some(n) => [(n, sep)] case None => [])
  }

  lemma {:induction false} MatchesSound(s: string, k: nat)
    requires k <= |SearchOrder|
    ensures forall e :: e in Matches(s, k) ==> e.1 in SearchOrder && Find(s, e.1) == Some(e.0)
  {
    if k > 0 {
      MatchesSound(s, k - 1);
    }
  }

  lemma {:induction false} MatchesComplete(s: string, k: nat, j: nat)
    requires j < k <= |SearchOrder|
    requires Find(s, SearchOrder[j]).Some?
    ensures (Find(s, SearchOrder[j]).value, SearchOrder[j]) in Matches(s, k)
  {
    if j < k - 1 {
      MatchesComplete(s, k - 1, j);
    }
  }

  /** The search records something exactly when the text holds a separator. */
  lemma MatchesIffSeparator(s: string)
    ensures Matches(s, |SearchOrder|) != [] <==> HasSeparator(s)
  {
    var all := Matches(s, |SearchOrder|);
    MatchesSound(s, |SearchOrder|);
    if all != [] {
      assert all[0] in all;
      assert OccursAt(s, all[0].1, all[0].0);
    }
    if HasSeparator(s) {
      var sep, n :| sep in SearchOrder && OccursAt(s, sep, n);
      var j :| 0 <= j < |SearchOrder| && SearchOrder[j] == sep;
      MatchesComplete(s, |SearchOrder|, j);
    }
  }

  /** The order `parse_param` sorts its matches in: by offset, then longest first. */
  predicate Precedes(a: (nat, string), b: (nat, string)) {
    a.0 < b.0 || (a.0 == b.0 && |a.1| >= |b.1|)
  }

  /** The match that comes first in that order is the leftmost-longest separator. */
  lemma SelectedIsLeftmostLongest(s: string, best: (nat, string))
    requires best in Matches(s, |SearchOrder|)
    requires forall e :: e in Matches(s, |SearchOrder|) ==> Precedes(best, e)
    ensures LeftmostLongest(s, best.1, best.0)
  {
    MatchesSound(s, |SearchOrder|);
    forall other, m | other in SearchOrder && OccursAt(s, other, m)
      ensures best.0 < m || (best.0 == m && |other| <= |best.1|)
    {
      var j :| 0 <= j < |SearchOrder| && SearchOrder[j] == other;
      MatchesComplete(s, |SearchOrder|, j);
      assert Precedes(best, (Find(s, other).value, other));
    }
  }

  /** `s.splitn(2, sep)`: the parts before and after the first occurrence of `sep`. */
  function SplitOnce(s: string, sep: string): (parts: (string, string))
    requires Find(s, sep).Some?
    ensures parts.0 + sep + parts.1 == s
    ensures forall m :: 0 <= m < |parts.0| ==> !OccursAt(s, sep, m)
  {
    var n := Find(s, sep).value;
    assert s == s[..n] + s[n..n + |sep|] + s[n + |sep|..];
    (s[..n], s[n + |sep|..])
  }

  lemma AppendAssoc(a: string, b: string, c: string)
    ensures (a + b) + c == a + (b + c)
  {
  }

  lemma FlattenPrefixStep(ts: seq<Token>, j: nat)
    requires j < |ts|
    ensures Flatten(ts[..j + 1]) == Flatten(ts[..j]) + Render(ts[j])
  {
    assert ts[..j + 1] == ts[..j] + [ts[j]];
    FlattenSnoc(ts[..j], ts[j]);
  }

  lemma FlattenInfixStep(ts: seq<Token>, i: nat, j: nat)
    requires i <= j < |ts|
    ensures Flatten(ts[i..j + 1]) == Flatten(ts[i..j]) + Render(ts[j])
  {
    assert ts[i..j + 1] == ts[i..j] + [ts[j]];
    FlattenSnoc(ts[i..j], ts[j]);
  }

  /** Key, separator and value put back together give the whole token sequence. */
  lemma SplitRoundTrip(ts: seq<Token>, i: nat, sep: string, n: nat)
    requires i < |ts| && ts[i].Text? && OccursAt(ts[i].text, sep, n)
    ensures (Flatten(ts[..i]) + ts[i].text[..n]) + sep + (ts[i].text[n + |sep|..] + Flatten(ts[i + 1..])) == Flatten(ts)
  {
    var s := ts[i].text;
    FlattenAround(ts, i);
    SplitAt(s, sep, n);
    AssociateAround(Flatten(ts[..i]), s[..n], sep, s[n + |sep|..], Flatten(ts[i + 1..]));
  }

  /** The tokens before `i`, token `i` and the tokens after it. */
  lemma FlattenAround(ts: seq<Token>, i: nat)
    requires i < |ts|
    ensures Flatten(ts) == Flatten(ts[..i]) + Render(ts[i]) + Flatten(ts[i + 1..])
  {
    assert ts == ts[..i + 1] + ts[i + 1..];
    FlattenAppend(ts[..i + 1], ts[i + 1..]);
    FlattenPrefixStep(ts, i);
  }

  /** A string is what precedes an occurrence, the occurrence, and what follows. */
  lemma SplitAt(s: string, sep: string, n: nat)
    requires OccursAt(s, sep, n)
    ensures s == s[..n] + sep + s[n + |sep|..]
  {
    assert s == s[..n] + s[n..n + |sep|] + s[n + |sep|..];
  }

  lemma AssociateAround(pre: string, a: string, sep: string, b: string, post: string)
    ensures (pre + a) + sep + (b + post) == pre + (a + sep + b) + post
  {
  }

  /**
   * The first loop of `parse_param`: search the text runs in order, recording
   * the first occurrence of each separator, and stop at the first run where
   * anything was recorded.
   */
  method SearchTokens(tokens: seq<Token>) returns (found: seq<(nat, string)>, idx: nat)
    ensures found == [] <==> forall j :: 0 <= j < |tokens| ==> !Searchable(tokens[j])
    ensures found != [] ==> IsFirstMatch(tokens, idx) && found == Matches(tokens[idx].text, |SearchOrder|)
  {
    var separators := SearchOrder;
    found, idx := [], 0;
    var i := 0;
    while i < |tokens|
      invariant 0 <= i <= |tokens|
      invariant found == []
      invariant forall j :: 0 <= j < i ==> !Searchable(tokens[j])
    {
      match tokens[i] {
        case Text(s) =>
          var k := 0;
          while k < |separators|
            invariant 0 <= k <= |separators|
            invariant found == Matches(s, k)
          {
            var n := Find(s, separators[k]);
            if n.Some? {
              found := found + [(n.value, separators[k])];
            }
            k := k + 1;
          }
          MatchesIffSeparator(s);
          if found != [] {
            idx := i;
            return;
          }
        case Escape(_) =>
      }
      i := i + 1;
    }
  }

  /**
   * Sorting the recorded matches by offset, longest separator first, and
   * taking the head: the result comes first in that order.
   */
  method SelectFirst(found: seq<(nat, string)>) returns (best: (nat, string))
    requires found != []
    ensures best in found
    ensures forall e :: e in found ==> Precedes(best, e)
  {
    best := found[0];
    var b := 1;
    while b < |found|
      invariant 1 <= b <= |found|
      invariant best in found[..b]
      invariant forall e :: e in found[..b] ==> Precedes(best, e)
    {
      if found[b].0 < best.0 || (found[b].0 == best.0 && |found[b].1| > |best.1|) {
        best := found[b];
      }
      assert found[..b + 1] == found[..b] + [found[b]];
      b := b + 1;
    }
    assert found[..b] == found;
  }

  /**
   * The second loop of `parse_param`: tokens before the winning one go to the
   * key and tokens after it to the value, escapes written back with their
   * backslash; the winning run is split at the separator's first occurrence.
   */
  method StitchKeyValue(tokens: seq<Token>, idx: nat, sep: string, n: nat) returns (key: string, value: string)
    requires idx < |tokens| && tokens[idx].Text?
    requires Find(tokens[idx].text, sep) == Some(n)
    ensures key == Flatten(tokens[..idx]) + tokens[idx].text[..n]
    ensures value == tokens[idx].text[n + |sep|..] + Flatten(tokens[idx + 1..])
  {
    ghost var s := tokens[idx].text;
    ghost var after := s[n + |sep|..];
    key, value := "", "";
    var j := 0;
    while j < |tokens|
      invariant 0 <= j <= |tokens|
      invariant j <= idx ==> key == Flatten(tokens[..j]) && value == ""
      invariant j > idx ==> key == Flatten(tokens[..idx]) + s[..n]
      invariant j > idx ==> value == after + Flatten(tokens[idx + 1..j])
    {
      if j < idx {
        FlattenPrefixStep(tokens, j);
        match tokens[j] {
          case Text(t) =>
            key := key + t;
          case Escape(c) =>
            key := key + ['\\', c];
        }
      } else if j > idx {
        FlattenInfixStep(tokens, idx + 1, j);
        var piece := match tokens[j] {
          case Text(t) => t
          case Escape(c) => ['\\', c]
        };
        AppendAssoc(after, Flatten(tokens[idx + 1..j]), piece);
        value := value + piece;
      } else {
        var parts := SplitOnce(tokens[j].text, sep);
        assert parts == (s[..n], after);
        key := key + parts.0;
        value := value + parts.1;
        assert tokens[idx + 1..j + 1] == [];
        assert Flatten(tokens[idx + 1..j + 1]) == [];
      }
      j := j + 1;
    }
    assert tokens[idx + 1..j] == tokens[idx + 1..];
  }

  /** Key and value stitched around the leftmost-longest separator of the first searchable run form the winning split. */
  lemma StitchedIsWinning(tokens: seq<Token>, idx: nat, sep: string, n: nat, p: Parameter)
    requires IsFirstMatch(tokens, idx) && LeftmostLongest(tokens[idx].text, sep, n)
    requires Literal(SeparatorOf(p)) == sep
    requires p.key == Flatten(tokens[..idx]) + tokens[idx].text[..n]
    requires p.value == tokens[idx].text[n + |sep|..] + Flatten(tokens[idx + 1..])
    ensures WinningSplit(tokens, p)
    ensures p.key + Literal(SeparatorOf(p)) + p.value == Flatten(tokens)
  {
    SplitRoundTrip(tokens, idx, sep, n);
  }

  /**
   * `parse_param`: tokenize, find the first text run holding a separator, choose
   * its leftmost-longest separator, and build key and value around the
   * separator's first occurrence.
   */
  method ParseParam(src: string) returns (r: Result<Parameter, Error>)
    ensures r.Failure? <==> forall j :: 0 <= j < |Tokenize(src)| ==> !Searchable(Tokenize(src)[j])
    ensures r.Failure? ==> r.error == ParameterMissingSeparator(src)
    ensures r.Success? ==> WinningSplit(Tokenize(src), r.value)
    ensures r.Success? ==> r.value.key + Literal(SeparatorOf(r.value)) + r.value.value == src
  {
    var tokens := GatherEscape(src);
    var found, idx := SearchTokens(tokens);
    if found == [] {
      return Failure(ParameterMissingSeparator(src));
    }
    var best := SelectFirst(found);
    ghost var s := tokens[idx].text;
    SelectedIsLeftmostLongest(s, best);
    MatchesSound(s, |SearchOrder|);
    var sep, n := best.1, best.0;
    var key, value := StitchKeyValue(tokens, idx, sep, n);

    SearchOrderSpellsSeparators(sep);
    var separator := TryFrom(sep).value;
    var p := Classify(separator, key, value);
    StitchedIsWinning(tokens, idx, sep, n, p);
    r := Success(p);
  }
}
