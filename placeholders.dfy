/** `replacePlaceholders`: the shader-source templating of
    src/utils/replacePlaceholders.ts. The source is one call
    `shaderSource.replace(/\{\{(\w+)\}\}/g, callback)`; here the global regex scan
    is `Tokenize` (the text cut into literal characters and matched placeholders,
    leftmost first, never overlapping) and the callback is `Rewrite`. */
module Placeholders {
  import Decimal
  import opened Optional

  /** A value of the `Record<string, boolean | number | string>` map; numbers are
      the naturals the filters substitute. */
  datatype Value = BoolValue(b: bool) | NumberValue(n: nat) | StringValue(s: string)

  /** One piece of the scanned source: a character outside every match, or a
      matched `{{name}}`. */
  datatype Segment = Literal(c: char) | Token(name: string)

  /** The `console.warn` diagnostic for a placeholder with no entry in the map. */
  datatype Warning = MissingPlaceholder(name: string) {
    function Message(): string
    {
      WarningLead + Placeholder(name) + WarningTail
    }
  }

  /** The warning text quotes the missing placeholder between a fixed 19-character
      lead and a fixed 24-character tail, so the name can be read back from it. */
  lemma MessageQuotesPlaceholder(w: Warning)
    ensures var m := w.Message();
            && |m| == |w.name| + 47
            && m[19..|m| - 24] == Placeholder(w.name)
            && m[21..|m| - 26] == w.name
  {
    WarningPartLengths();
    SliceMiddle(WarningLead, Placeholder(w.name), WarningTail);
    SliceMiddle("{{", w.name, "}}");
  }

  lemma WarningPartLengths()
    ensures |WarningLead| == 19 && |WarningTail| == 24
  {
  }

  lemma SliceMiddle<T>(a: seq<T>, b: seq<T>, c: seq<T>)
    ensures (a + b + c)[|a|..|a| + |b|] == b
  {
  }

  lemma Reassociate<T>(a: seq<T>, b: seq<T>, c: seq<T>)
    ensures a + (b + c) == a + b + c
  {
  }

  /** Different missing names give different warning texts. */
  lemma MessageInjective(a: Warning, b: Warning)
    requires a.Message() == b.Message()
    ensures a == b
  {
    MessageQuotesPlaceholder(a);
    MessageQuotesPlaceholder(b);
  }

  /** The text of a warning around the quoted placeholder. */
  const WarningLead := "Shader placeholder "
  const WarningTail := " not found in values map"

  /** The rewritten text, and the warnings in the order they are emitted. */
  datatype Substitution = Substitution(text: string, warnings: seq<Warning>)

  // ---------------------------------------------------------------------------
  // The pattern /\{\{(\w+)\}\}/

  /** `\w`: an ASCII letter, a digit or the underscore. */
  predicate IsWordChar(c: char)
  {
    ('a' <= c <= 'z') || ('A' <= c <= 'Z') || ('0' <= c <= '9') || c == '_'
  }

  /** Every character is a `\w`. */
  predicate AllWordChars(w: string)
  {
    w == [] || (IsWordChar(w[0]) && AllWordChars(w[1..]))
  }

  /** `\w+` */
  predicate IsName(w: string)
  {
    |w| > 0 && AllWordChars(w)
  }

  /** A non-empty text of word characters is a name. */
  lemma {:induction false} NameFromChars(w: string)
    requires |w| > 0 && forall i | 0 <= i < |w| :: IsWordChar(w[i])
    ensures IsName(w)
  {
    if |w| > 1 {
      NameFromChars(w[1..]);
    }
  }

  /** Each character of a run of word characters is one. */
  lemma {:induction false} AllWordCharsIndex(w: string, i: nat)
    requires AllWordChars(w) && i < |w|
    ensures IsWordChar(w[i])
  {
    if i > 0 {
      AllWordCharsIndex(w[1..], i - 1);
    }
  }

  function Placeholder(name: string): string
  {
    "{{" + name + "}}"
  }

  /** `t` is a whole match of the pattern. */
  predicate IsPlaceholder(t: string)
  {
    && |t| >= 5
    && t[0] == '{' && t[1] == '{'
    && t[|t| - 2] == '}' && t[|t| - 1] == '}'
    && IsName(t[2..|t| - 2])
  }

  function NameOf(t: string): string
    requires |t| >= 4
  {
    t[2..|t| - 2]
  }

  /** Length of the longest prefix of word characters (the greedy `\w+`). */
  function WordRun(s: string): (n: nat)
    ensures n <= |s| && AllWordChars(s[..n])
    ensures n == |s| || !IsWordChar(s[n])
  {
    if s == [] || !IsWordChar(s[0]) then 0
    else
      var n := 1 + WordRun(s[1..]);
      assert s[..n][1..] == s[1..][..n - 1];
      n
  }

  /** The greedy run stops exactly at the end of a name followed by a non-word character. */
  lemma {:induction false} WordRunOfName(w: string, rest: string)
    requires AllWordChars(w)
    requires rest == [] || !IsWordChar(rest[0])
    ensures WordRun(w + rest) == |w|
  {
    if w != [] {
      assert (w + rest)[1..] == w[1..] + rest;
      WordRunOfName(w[1..], rest);
    } else {
      assert w + rest == rest;
    }
  }

  /** At most one prefix of a text is a placeholder: its name is the greedy run. */
  lemma PlaceholderPrefixLength(s: string, k: nat)
    requires k <= |s| && IsPlaceholder(s[..k])
    ensures WordRun(s[2..]) + 4 == k
  {
    var t := s[..k];
    assert s[2..] == NameOf(t) + s[k - 2..];
    WordRunOfName(NameOf(t), s[k - 2..]);
  }

  /** One attempt of the regex at the start of `s`: the length of the match, if any. */
  function MatchAt(s: string): (r: Option<nat>)
    ensures r.Some? ==> r.value <= |s| && IsPlaceholder(s[..r.value])
    ensures forall k {:trigger IsPlaceholder(s[..k])} | 0 <= k <= |s| && IsPlaceholder(s[..k]) :: r == Some(k)
  {
    if |s| < 2 || s[0] != '{' || s[1] != '{' then None
    else
      var n := WordRun(s[2..]);
      assert forall k {:trigger IsPlaceholder(s[..k])} | 0 <= k <= |s| && IsPlaceholder(s[..k]) :: k == n + 4 by {
        forall k | 0 <= k <= |s| && IsPlaceholder(s[..k]) ensures k == n + 4 {
          PlaceholderPrefixLength(s, k);
        }
      }
      if 0 < n && n + 4 <= |s| && s[n + 2] == '}' && s[n + 3] == '}' then
        assert s[..n + 4][2..n + 2] == s[2..][..n];
        Some(n + 4)
      else None
  }

  // ---------------------------------------------------------------------------
  // The global scan

  /** The text a segment was cut from. */
  function SegmentSource(g: Segment): string
  {
    match g
    case Literal(c) => [c]
    case Token(name) => Placeholder(name)
  }

  function Source(segments: seq<Segment>): string
  {
    if segments == [] then [] else SegmentSource(segments[0]) + Source(segments[1..])
  }

  /** Some prefix of `t` is a placeholder: a regex attempt at the start of `t` succeeds. */
  ghost predicate StartsWithPlaceholder(t: string)
  {
    exists k {:trigger IsPlaceholder(t[..k])} | 0 <= k <= |t| :: IsPlaceholder(t[..k])
  }

  /** How the global scan cuts text: every token is a `\w+` name, and a character is
      left as a literal only where no placeholder starts. */
  ghost predicate Canonical(segments: seq<Segment>)
  {
    segments == [] ||
    ((match segments[0]
      case Token(name) => IsName(name)
      case Literal(_) => !StartsWithPlaceholder(Source(segments)))
     && Canonical(segments[1..]))
  }

  /** A text whose first `k` characters are a placeholder is that placeholder
      followed by the rest. */
  lemma PlaceholderHead(s: string, k: nat)
    requires k <= |s| && IsPlaceholder(s[..k])
    ensures s == Placeholder(NameOf(s[..k])) + s[k..]
  {
    var t := s[..k];
    assert t == "{{" + t[2..k - 2] + "}}";
    assert s == t + s[k..];
  }

  /** The left-to-right, non-overlapping scan of the `g` flag. */
  function Tokenize(s: string): (r: seq<Segment>)
    ensures Source(r) == s
    decreases |s|
  {
    if s == [] then []
    else
      match MatchAt(s)
      case Some(k) =>
        PlaceholderHead(s, k);
        [Token(NameOf(s[..k]))] + Tokenize(s[k..])
      case None =>
        assert s == [s[0]] + s[1..];
        [Literal(s[0])] + Tokenize(s[1..])
  }

  // ---------------------------------------------------------------------------
  // The callback and the substitution

  /** `String(value)`, with booleans as the shader literals "1" and "0". */
  function Render(v: Value): string
  {
    match v
    case BoolValue(b) => if b then "1" else "0"
    case NumberValue(n) => Decimal.DecimalText(n)
    case StringValue(s) => s
  }

  /** The callback: a known name becomes its rendering, an unknown match is returned
      as it was matched. */
  function Rewrite(g: Segment, values: map<string, Value>): string
  {
    match g
    case Literal(c) => [c]
    case Token(name) => if name in values then Render(values[name]) else Placeholder(name)
  }

  function RewriteAll(segments: seq<Segment>, values: map<string, Value>): string
  {
    if segments == [] then [] else Rewrite(segments[0], values) + RewriteAll(segments[1..], values)
  }

  /** One warning per matched token whose name the map lacks, in scan order. */
  function MissingNames(segments: seq<Segment>, values: map<string, Value>): seq<Warning>
  {
    if segments == [] then []
    else
      var rest := MissingNames(segments[1..], values);
      match segments[0]
      case Token(name) => if name in values then rest else [MissingPlaceholder(name)] + rest
      case Literal(_) => rest
  }

  /** `replacePlaceholders(shaderSource, values)`, with the warnings returned. */
  function Replace(shaderSource: string, values: map<string, Value>): Substitution
  {
    var segments := Tokenize(shaderSource);
    Substitution(RewriteAll(segments, values), MissingNames(segments, values))
  }

  // ---------------------------------------------------------------------------
  // Properties of the scan

  lemma {:induction false} CanonicalTokensAreNames(segments: seq<Segment>)
    requires Canonical(segments)
    ensures forall name | Token(name) in segments :: IsName(name)
  {
    if segments != [] {
      CanonicalTokensAreNames(segments[1..]);
      forall name | Token(name) in segments ensures IsName(name) {
        if segments[0] != Token(name) {
          assert Token(name) in segments[1..];
        }
      }
    }
  }

  /** A regex attempt succeeds exactly where a placeholder starts. */
  lemma MatchAtFindsPlaceholder(s: string)
    ensures MatchAt(s).Some? <==> StartsWithPlaceholder(s)
  {
    if MatchAt(s).Some? {
      assert IsPlaceholder(s[..MatchAt(s).value]);
    }
  }

  /** The scan is determined: any canonical cutting of `s` is `Tokenize(s)`. */
  lemma {:induction false} TokenizeUnique(s: string, segments: seq<Segment>)
    requires Source(segments) == s && Canonical(segments)
    ensures segments == Tokenize(s)
    decreases |s|
  {
    if segments != [] {
      var rest := segments[1..];
      match segments[0]
      case Token(name) =>
        var k := |name| + 4;
        assert s[..k] == Placeholder(name);
        assert IsPlaceholder(s[..k]);
        assert MatchAt(s) == Some(k);
        assert s[k..] == Source(rest);
        TokenizeUnique(s[k..], rest);
      case Literal(c) =>
        MatchAtFindsPlaceholder(s);
        assert s[1..] == Source(rest);
        TokenizeUnique(s[1..], rest);
    }
  }

  /** `p` cut into literal characters. */
  function Literals(p: string): seq<Segment>
  {
    if p == [] then [] else [Literal(p[0])] + Literals(p[1..])
  }

  /** Text without an opening brace is scanned character by character. */
  lemma {:induction false} TokenizeLiteralPrefix(p: string, t: string)
    requires '{' !in p
    ensures Tokenize(p + t) == Literals(p) + Tokenize(t)
    decreases |p|
  {
    if p != [] {
      var s := p + t;
      assert s[0] == p[0] && p[0] in p;
      assert MatchAt(s) == None;
      assert Tokenize(s) == [Literal(s[0])] + Tokenize(s[1..]);
      assert s[1..] == p[1..] + t;
      TokenizeLiteralPrefix(p[1..], t);
    } else {
      assert p + t == t;
    }
  }

  /** A placeholder at the start of the text is matched as one token. */
  lemma TokenizePlaceholderPrefix(name: string, t: string)
    requires IsName(name)
    ensures Tokenize(Placeholder(name) + t) == [Token(name)] + Tokenize(t)
  {
    var s := Placeholder(name) + t;
    var k := |name| + 4;
    assert s[..k] == Placeholder(name);
    assert IsPlaceholder(s[..k]);
    assert MatchAt(s) == Some(k);
    assert s[k..] == t;
    assert NameOf(s[..k]) == name;
  }

  lemma RewriteAllConcat(x: seq<Segment>, y: seq<Segment>, values: map<string, Value>)
    ensures RewriteAll(x + y, values) == RewriteAll(x, values) + RewriteAll(y, values)
    ensures MissingNames(x + y, values) == MissingNames(x, values) + MissingNames(y, values)
  {
    RewriteAllAppend(x, y, values);
    MissingNamesAppend(x, y, values);
  }

  lemma {:induction false} RewriteAllAppend(x: seq<Segment>, y: seq<Segment>, values: map<string, Value>)
    ensures RewriteAll(x + y, values) == RewriteAll(x, values) + RewriteAll(y, values)
  {
    if x == [] {
      assert x + y == y;
    } else {
      assert (x + y)[0] == x[0];
      assert (x + y)[1..] == x[1..] + y;
      RewriteAllAppend(x[1..], y, values);
    }
  }

  lemma {:induction false} MissingNamesAppend(x: seq<Segment>, y: seq<Segment>, values: map<string, Value>)
    ensures MissingNames(x + y, values) == MissingNames(x, values) + MissingNames(y, values)
  {
    if x == [] {
      assert x + y == y;
    } else {
      assert (x + y)[0] == x[0];
      assert (x + y)[1..] == x[1..] + y;
      MissingNamesAppend(x[1..], y, values);
    }
  }

  lemma {:induction false} RewriteLiterals(p: string, values: map<string, Value>)
    ensures RewriteAll(Literals(p), values) == p
    ensures MissingNames(Literals(p), values) == []
  {
    if p != [] {
      assert Literals(p)[0] == Literal(p[0]);
      assert Literals(p)[1..] == Literals(p[1..]);
      RewriteLiterals(p[1..], values);
    }
  }

  /** Substituting into `p + t`, where `p` has no opening brace, keeps `p` as it is. */
  lemma ReplaceLiteralPrefix(p: string, t: string, values: map<string, Value>)
    requires '{' !in p
    ensures Replace(p + t, values) ==
            Substitution(p + Replace(t, values).text, Replace(t, values).warnings)
  {
    TokenizeLiteralPrefix(p, t);
    RewriteAllConcat(Literals(p), Tokenize(t), values);
    RewriteLiterals(p, values);
  }

  /** Substituting into a placeholder followed by `t`. */
  lemma ReplacePlaceholderPrefix(name: string, t: string, values: map<string, Value>)
    requires IsName(name)
    ensures var rest := Replace(t, values);
            Replace(Placeholder(name) + t, values) ==
            if name in values then Substitution(Render(values[name]) + rest.text, rest.warnings)
            else Substitution(Placeholder(name) + rest.text, [MissingPlaceholder(name)] + rest.warnings)
  {
    TokenizePlaceholderPrefix(name, t);
    RewriteAllConcat([Token(name)], Tokenize(t), values);
  }

  /** `t` begins with `{{`, as every placeholder does. */
  predicate OpensWithBraces(t: string)
  {
    |t| >= 2 && t[0] == '{' && t[1] == '{'
  }

  /** No match can run from `p` into a following `{{`: the attempt at the start of
      `p + t` is the attempt at the start of `p`. */
  lemma MatchStopsBeforeBraces(p: string, t: string)
    requires p != [] && OpensWithBraces(t)
    ensures MatchAt(p + t) == MatchAt(p)
  {
    var s := p + t;
    if MatchAt(p).Some? {
      var k := MatchAt(p).value;
      assert s[..k] == p[..k];
    }
    if MatchAt(s).Some? {
      var k := MatchAt(s).value;
      MatchWithinPrefix(p, t, k);
      assert s[..k] == p[..k];
    }
  }

  /** A placeholder at the start of `p + t` ends within `p` when `t` opens with
      `{{`: past its first two characters a placeholder holds no `{`. */
  lemma MatchWithinPrefix(p: string, t: string, k: nat)
    requires p != [] && OpensWithBraces(t) && k <= |p + t| && IsPlaceholder((p + t)[..k])
    ensures k <= |p|
  {
    var s := p + t;
    NoOpenBraceInside(s, k);
    assert s[|p|] == '{' && s[|p| + 1] == '{';
  }

  /** Past its two opening braces, a placeholder holds word characters and closing
      braces only. */
  lemma NoOpenBraceInside(s: string, k: nat)
    requires k <= |s| && IsPlaceholder(s[..k])
    ensures forall i | 2 <= i < k :: s[i] != '{'
  {
    forall i | 2 <= i < k
      ensures s[i] != '{'
    {
      if i < k - 2 {
        AllWordCharsIndex(s[..k][2..k - 2], i - 2);
      }
    }
  }

  /** The scan of `p + t` is the scan of `p` followed by the scan of `t`, when `t`
      begins with `{{`. */
  lemma {:induction false} TokenizeSplit(p: string, t: string)
    requires OpensWithBraces(t)
    ensures Tokenize(p + t) == Tokenize(p) + Tokenize(t)
    decreases |p|
  {
    if p == [] {
      assert p + t == t;
    } else {
      var rest := SplitStep(p, t);
      TokenizeSplit(rest, t);
    }
  }

  /** One step of `TokenizeSplit`: the split holds for `p` once it holds for the
      shorter text left after the first piece. */
  lemma SplitStep(p: string, t: string) returns (rest: string)
    requires p != [] && OpensWithBraces(t)
    ensures |rest| < |p|
    ensures Tokenize(rest + t) == Tokenize(rest) + Tokenize(t) ==>
            Tokenize(p + t) == Tokenize(p) + Tokenize(t)
  {
    var n, head := FirstPiece(p, t);
    rest := p[n..];
    if Tokenize(rest + t) == Tokenize(rest) + Tokenize(t) {
      SharedHead(Tokenize(p), Tokenize(p + t), head, Tokenize(rest), Tokenize(rest + t), Tokenize(t));
    }
  }

  /** Two lists with the same head, whose tails differ by a suffix, differ by that
      suffix. */
  lemma SharedHead(a: seq<Segment>, b: seq<Segment>, head: seq<Segment>, x: seq<Segment>, y: seq<Segment>, c: seq<Segment>)
    requires a == head + x && b == head + y && y == x + c
    ensures b == a + c
  {
    assert head + (x + c) == (head + x) + c;
  }

  /** The first piece the scan cuts from `p` is also the first it cuts from `p + t`. */
  lemma FirstPiece(p: string, t: string) returns (n: nat, head: seq<Segment>)
    requires p != [] && OpensWithBraces(t)
    ensures 0 < n <= |p|
    ensures Tokenize(p) == head + Tokenize(p[n..])
    ensures Tokenize(p + t) == head + Tokenize(p[n..] + t)
  {
    var s := p + t;
    MatchStopsBeforeBraces(p, t);
    match MatchAt(p)
    case Some(k) =>
      n, head := k, [Token(NameOf(p[..k]))];
      assert s[..k] == p[..k];
      assert s[k..] == p[k..] + t;
    case None =>
      n, head := 1, [Literal(p[0])];
      assert s[0] == p[0];
      assert s[1..] == p[1..] + t;
  }

  /** Substituting into `p + t`, where `t` begins with `{{`, substitutes into each
      part on its own: texts and warnings concatenate. */
  lemma ReplaceSplit(p: string, t: string, values: map<string, Value>)
    requires OpensWithBraces(t)
    ensures Replace(p + t, values) ==
            Substitution(Replace(p, values).text + Replace(t, values).text,
                         Replace(p, values).warnings + Replace(t, values).warnings)
  {
    TokenizeSplit(p, t);
    RewriteAllConcat(Tokenize(p), Tokenize(t), values);
  }

  // ---------------------------------------------------------------------------
  // Properties of replacePlaceholders

  /** No substring of `s` matches the pattern. */
  ghost predicate ContainsNoPlaceholder(s: string)
  {
    forall i, j {:trigger IsPlaceholder(s[i..j])} | 0 <= i <= j <= |s| :: !IsPlaceholder(s[i..j])
  }

  lemma {:induction false} TokenizeWithoutPlaceholders(s: string)
    requires ContainsNoPlaceholder(s)
    ensures Tokenize(s) == Literals(s)
    decreases |s|
  {
    if s != [] {
      MatchAtFindsPlaceholder(s);
      assert forall k | 0 <= k <= |s| :: s[..k] == s[0..k];
      assert ContainsNoPlaceholder(s[1..]) by {
        forall i, j | 0 <= i <= j <= |s[1..]| ensures !IsPlaceholder(s[1..][i..j]) {
          assert s[1..][i..j] == s[i + 1..j + 1];
        }
      }
      TokenizeWithoutPlaceholders(s[1..]);
    }
  }

  /** Source containing no `{{\w+}}` is returned unchanged and without a warning. */
  lemma NoPlaceholderUnchanged(s: string, values: map<string, Value>)
    requires ContainsNoPlaceholder(s)
    ensures Replace(s, values) == Substitution(s, [])
  {
    TokenizeWithoutPlaceholders(s);
    RewriteLiterals(s, values);
  }

  /** `{{}}`, and braces around anything that is not a `\w+` name, are no placeholder. */
  lemma NonNameBracesUntouched(name: string, values: map<string, Value>)
    requires !IsName(name) && '{' !in name && '}' !in name
    ensures Replace(Placeholder(name), values) == Substitution(Placeholder(name), [])
  {
    var s := Placeholder(name);
    assert s[2..|s| - 2] == name;
    forall i, j | 0 <= i <= j <= |s| ensures !IsPlaceholder(s[i..j]) {
      if i == 0 && j == |s| {
        assert s[i..j] == s;
      }
    }
    NoPlaceholderUnchanged(s, values);
  }

  /** A known name is replaced by its rendering: "1"/"0" for a boolean, the decimal
      text for a number (which reads back as that number), the string itself. */
  lemma KnownPlaceholderReplaced(name: string, values: map<string, Value>)
    requires IsName(name) && name in values
    ensures Replace(Placeholder(name), values) == Substitution(Render(values[name]), [])
    ensures values[name] == BoolValue(true) ==> Replace(Placeholder(name), values).text == "1"
    ensures values[name] == BoolValue(false) ==> Replace(Placeholder(name), values).text == "0"
    ensures values[name].NumberValue? ==>
              var t := Replace(Placeholder(name), values).text;
              Decimal.IsDecimal(t) && Decimal.DecimalValue(t) == values[name].n
  {
    ReplacePlaceholderPrefix(name, [], values);
    assert Placeholder(name) + [] == Placeholder(name);
    if values[name].NumberValue? {
      Decimal.DecimalRoundTrip(values[name].n);
    }
  }

  /** An unknown name is copied verbatim, with exactly one warning naming it. */
  lemma UnknownPlaceholderKept(name: string, values: map<string, Value>)
    requires IsName(name) && name !in values
    ensures Replace(Placeholder(name), values) ==
            Substitution(Placeholder(name), [MissingPlaceholder(name)])
  {
    ReplacePlaceholderPrefix(name, [], values);
    assert Placeholder(name) + [] == Placeholder(name);
  }

  /** Text without an opening brace is returned as it is, without a warning. */
  lemma ReplaceWithoutOpenBrace(t: string, values: map<string, Value>)
    requires '{' !in t
    ensures Replace(t, values) == Substitution(t, [])
  {
    TokenizeLiteralPrefix(t, []);
    assert t + [] == t;
    assert Literals(t) + [] == Literals(t);
    RewriteLiterals(t, values);
  }

  /** A known placeholder is replaced by its rendering wherever it stands; the texts
      on either side are substituted on their own and kept around it, in order
      (`"foo {{A}} bar"` with `A = true` gives `"foo 1 bar"`). */
  lemma KnownPlaceholderInContext(prefix: string, name: string, suffix: string, values: map<string, Value>)
    requires IsName(name) && name in values
    ensures var before, after := Replace(prefix, values), Replace(suffix, values);
            Replace(prefix + Placeholder(name) + suffix, values) ==
            Substitution(before.text + Render(values[name]) + after.text, before.warnings + after.warnings)
  {
    var before := Replace(prefix, values);
    var mid := Placeholder(name) + suffix;
    SplitAtPlaceholder(prefix, name, suffix, values);
    ReplacePlaceholderPrefix(name, suffix, values);
    Around(Replace(prefix + Placeholder(name) + suffix, values), before, Replace(mid, values),
           Replace(suffix, values), Render(values[name]), []);
    assert before.warnings + [] == before.warnings;
  }

  /** An unknown placeholder is kept wherever it stands, with one warning between the
      warnings of the texts on either side (`"foo {{B}} bar"` without `B`). */
  lemma UnknownPlaceholderInContext(prefix: string, name: string, suffix: string, values: map<string, Value>)
    requires IsName(name) && name !in values
    ensures var before, after := Replace(prefix, values), Replace(suffix, values);
            Replace(prefix + Placeholder(name) + suffix, values) ==
            Substitution(before.text + Placeholder(name) + after.text,
                         before.warnings + [MissingPlaceholder(name)] + after.warnings)
  {
    var mid := Placeholder(name) + suffix;
    SplitAtPlaceholder(prefix, name, suffix, values);
    ReplacePlaceholderPrefix(name, suffix, values);
    Around(Replace(prefix + Placeholder(name) + suffix, values), Replace(prefix, values), Replace(mid, values),
           Replace(suffix, values), Placeholder(name), [MissingPlaceholder(name)]);
  }

  /** Cutting a text just before a placeholder: the substitution is that of the text
      before it followed by that of the placeholder and the rest. */
  lemma SplitAtPlaceholder(prefix: string, name: string, suffix: string, values: map<string, Value>)
    ensures var before, mid := Replace(prefix, values), Replace(Placeholder(name) + suffix, values);
            Replace(prefix + Placeholder(name) + suffix, values) ==
            Substitution(before.text + mid.text, before.warnings + mid.warnings)
  {
    assert prefix + Placeholder(name) + suffix == prefix + (Placeholder(name) + suffix);
    ReplaceSplit(prefix, Placeholder(name) + suffix, values);
  }

  /** A substitution made of `before` and `mid`, where `mid` is `x` and its warnings
      `ws` in front of `after`, is `x` and `ws` between `before` and `after`. */
  lemma Around(whole: Substitution, before: Substitution, mid: Substitution, after: Substitution,
               x: string, ws: seq<Warning>)
    requires whole == Substitution(before.text + mid.text, before.warnings + mid.warnings)
    requires mid == Substitution(x + after.text, ws + after.warnings)
    ensures whole == Substitution(before.text + x + after.text, before.warnings + ws + after.warnings)
  {
    Reassociate(before.text, x, after.text);
    Reassociate(before.warnings, ws, after.warnings);
  }

  /** Every occurrence of a placeholder is replaced, not only the first
      (`"{{A}}-{{A}}"` with `A = 5` gives `"5-5"`). */
  lemma RepeatedPlaceholderReplaced(name: string, between: string, values: map<string, Value>)
    requires IsName(name) && name in values
    ensures var middle := Replace(between, values);
            Replace(Placeholder(name) + between + Placeholder(name), values) ==
            Substitution(Render(values[name]) + middle.text + Render(values[name]), middle.warnings)
  {
    var middle := Replace(between, values);
    var r := Render(values[name]);
    var tail := between + Placeholder(name);
    assert Placeholder(name) + between + Placeholder(name) == Placeholder(name) + tail;
    assert r + middle.text + r == r + (middle.text + r);
    assert tail + [] == tail && middle.text + r + [] == middle.text + r;
    assert middle.warnings + [] == middle.warnings;
    ReplaceWithoutOpenBrace([], values);
    KnownPlaceholderInContext(between, name, [], values);
    ReplacePlaceholderPrefix(name, tail, values);
  }

  /** The scan cuts every text canonically, so with `TokenizeUnique` it is the one
      cutting the regex defines. */
  lemma {:induction false} TokenizeCanonical(s: string)
    ensures Canonical(Tokenize(s))
    decreases |s|
  {
    if s != [] {
      MatchAtFindsPlaceholder(s);
      match MatchAt(s)
      case Some(k) =>
        assert IsPlaceholder(s[..k]);
        TokenizeCanonical(s[k..]);
      case None =>
        TokenizeCanonical(s[1..]);
    }
  }

  lemma {:induction false} MissingNamesExactly(segments: seq<Segment>, values: map<string, Value>, name: string)
    ensures MissingPlaceholder(name) in MissingNames(segments, values) <==>
            Token(name) in segments && name !in values
  {
    if segments != [] {
      assert segments == [segments[0]] + segments[1..];
      MissingNamesExactly(segments[1..], values, name);
    }
  }

  /** A warning is emitted for a name exactly when a placeholder with that name is
      matched and the map lacks it; every warned name is a `\w+` name. */
  lemma ReplaceWarnings(s: string, values: map<string, Value>, name: string)
    ensures MissingPlaceholder(name) in Replace(s, values).warnings <==>
            Token(name) in Tokenize(s) && name !in values
    ensures MissingPlaceholder(name) in Replace(s, values).warnings ==> IsName(name)
  {
    MissingNamesExactly(Tokenize(s), values, name);
    TokenizeCanonical(s);
    CanonicalTokensAreNames(Tokenize(s));
  }

  /** How often `Token(name)` occurs. */
  function Occurrences(segments: seq<Segment>, name: string): nat
  {
    if segments == [] then 0
    else (if segments[0] == Token(name) then 1 else 0) + Occurrences(segments[1..], name)
  }

  /** Changing the value of one name in any map changes the text length by the
      difference in rendered length, once per occurrence of that name. */
  lemma {:induction false} RewriteAllLengthDifference(segments: seq<Segment>, values: map<string, Value>, name: string, u: Value, v: Value)
    ensures |RewriteAll(segments, values[name := u])| - |RewriteAll(segments, values[name := v])| ==
            Occurrences(segments, name) * (|Render(u)| - |Render(v)|)
  {
    if segments != [] {
      var mu, mv := values[name := u], values[name := v];
      var g := segments[0];
      RewriteAllLengthDifference(segments[1..], values, name, u, v);
      var m := Occurrences(segments[1..], name);
      var du := |RewriteAll(segments[1..], mu)|;
      var dv := |RewriteAll(segments[1..], mv)|;
      assert |RewriteAll(segments, mu)| == |Rewrite(g, mu)| + du;
      assert |RewriteAll(segments, mv)| == |Rewrite(g, mv)| + dv;
      if g == Token(name) {
        ScaledStep(m, |Render(u)| - |Render(v)|);
      } else {
        assert Rewrite(g, mu) == Rewrite(g, mv);
      }
    }
  }

  lemma ScaledStep(m: int, d: int)
    ensures (m + 1) * d == m * d + d
  {
  }

  lemma {:induction false} RewriteAllDistinct(segments: seq<Segment>, values: map<string, Value>, name: string, u: Value, v: Value)
    requires Token(name) in segments && Render(u) != Render(v)
    ensures RewriteAll(segments, values[name := u]) != RewriteAll(segments, values[name := v])
  {
    var mu, mv := values[name := u], values[name := v];
    var g := segments[0];
    var a, b := RewriteAll(segments[1..], mu), RewriteAll(segments[1..], mv);
    assert RewriteAll(segments, mu) == Rewrite(g, mu) + a;
    assert RewriteAll(segments, mv) == Rewrite(g, mv) + b;
    if g == Token(name) {
      RewriteAllLengthDifference(segments[1..], values, name, u, v);
      DifferentHeads(Render(u), Render(v), a, b, Occurrences(segments[1..], name));
    } else {
      assert Token(name) in segments[1..];
      RewriteAllDistinct(segments[1..], values, name, u, v);
      assert Rewrite(g, mu) == Rewrite(g, mv);
      SameHead(Rewrite(g, mu), a, b);
    }
  }

  lemma DifferentHeads(x: string, y: string, a: string, b: string, m: nat)
    requires x != y && |a| - |b| == m * (|x| - |y|)
    ensures x + a != y + b
  {
    if |x| == |y| {
      assert (x + a)[..|x|] == x && (y + b)[..|y|] == y;
    } else {
      ScaledStep(m, |x| - |y|);
      MultipleNonZero(m + 1, |x| - |y|);
    }
  }

  lemma MultipleNonZero(m: int, d: int)
    requires m > 0 && d != 0
    ensures m * d != 0
  {
    if d > 0 {
      assert m * d >= d;
    } else {
      assert m * d <= d;
    }
  }

  lemma SameHead(x: string, a: string, b: string)
    requires a != b
    ensures x + a != x + b
  {
    assert (x + a)[|x|..] == a && (x + b)[|x|..] == b;
  }

  /** A placeholder that occurs in the source reaches the output: whatever the
      other values are, two values of different renderings for it give two
      different texts. */
  lemma DistinctRenderingsDistinctText(s: string, values: map<string, Value>, name: string, u: Value, v: Value)
    requires Token(name) in Tokenize(s) && Render(u) != Render(v)
    ensures Replace(s, values[name := u]).text != Replace(s, values[name := v]).text
  {
    RewriteAllDistinct(Tokenize(s), values, name, u, v);
  }
}
