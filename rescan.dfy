/** What a second `replacePlaceholders` pass over its own output does. Substitution is
    idempotent when no rendered value contains an opening brace and every known
    placeholder stands at the start of the text or right after a separator; without
    the second condition it is not (`NestedPlaceholderRescanned`). */
module Rescan {
  import opened Optional
  import opened Placeholders

  /** A character that can be part of a match. */
  predicate IsRunChar(c: char)
  {
    IsWordChar(c) || c == '{' || c == '}'
  }

  /** A character that can be part of no placeholder. */
  predicate IsSeparator(c: char)
  {
    !IsRunChar(c)
  }

  /** The longest prefix made only of braces and word characters: all a regex
      attempt at the start of `t` can look at. */
  function LeadingRun(t: string): (r: string)
    ensures |r| <= |t| && r == t[..|r|]
  {
    if t == [] || !IsRunChar(t[0]) then [] else [t[0]] + LeadingRun(t[1..])
  }

  /** A placeholder whose name is in the map starts at the beginning of `t`. */
  predicate StartsWithKnown(t: string, values: map<string, Value>)
  {
    match MatchAt(t)
    case Some(k) => NameOf(t[..k]) in values
    case None => false
  }

  /** Every known placeholder that does not start the text follows a separator. */
  ghost predicate KnownPlaceholdersIsolated(s: string, values: map<string, Value>)
  {
    forall i {:trigger s[i..]} | 0 < i < |s| && StartsWithKnown(s[i..], values) :: IsSeparator(s[i - 1])
  }

  /** No rendered value of the map contains an opening brace. */
  ghost predicate RenderingsWithoutOpenBrace(values: map<string, Value>)
  {
    forall name | name in values :: '{' !in Render(values[name])
  }

  /** A run of characters that can be matched is inside the leading run. */
  lemma {:induction false} LeadingRunCovers(t: string, k: nat)
    requires k <= |t|
    requires forall i | 0 <= i < k :: IsRunChar(t[i])
    ensures k <= |LeadingRun(t)|
  {
    if k > 0 {
      LeadingRunCovers(t[1..], k - 1);
    }
  }

  lemma PlaceholderInLeadingRun(t: string, k: nat)
    requires k <= |t| && IsPlaceholder(t[..k])
    ensures k <= |LeadingRun(t)|
  {
    var w := t[..k];
    forall i | 0 <= i < k ensures IsRunChar(t[i]) {
      if 2 <= i < k - 2 {
        assert w[2..k - 2][i - 2] == t[i];
        AllWordCharsIndex(w[2..k - 2], i - 2);
      }
    }
    LeadingRunCovers(t, k);
  }

  /** A regex attempt only depends on the leading run. */
  lemma MatchAtOfLeadingRun(t: string)
    ensures MatchAt(LeadingRun(t)) == MatchAt(t)
  {
    var l := LeadingRun(t);
    match MatchAt(t)
    case Some(k) =>
      PlaceholderInLeadingRun(t, k);
      assert l[..k] == t[..k];
      assert IsPlaceholder(l[..k]);
    case None =>
      if MatchAt(l).Some? {
        var k := MatchAt(l).value;
        assert l[..k] == t[..k];
      }
  }

  lemma {:induction false} LeadingRunOfRunPrefix(w: string, y: string)
    requires forall i | 0 <= i < |w| :: IsRunChar(w[i])
    ensures LeadingRun(w + y) == w + LeadingRun(y)
  {
    if w == [] {
      assert w + y == y;
    } else {
      assert (w + y)[1..] == w[1..] + y;
      LeadingRunOfRunPrefix(w[1..], y);
      assert [w[0]] + (w[1..] + LeadingRun(y)) == w + LeadingRun(y);
    }
  }

  lemma IsolatedSuffix(s: string, k: nat, values: map<string, Value>)
    requires k <= |s| && KnownPlaceholdersIsolated(s, values)
    ensures KnownPlaceholdersIsolated(s[k..], values)
  {
    var t := s[k..];
    forall i | 0 < i < |t| && StartsWithKnown(t[i..], values) ensures IsSeparator(t[i - 1]) {
      assert t[i..] == s[k + i..];
    }
  }

  /** A single character in front of `x` that starts no match stays a literal. */
  lemma ReplaceLiteralHead(c: char, x: string, values: map<string, Value>)
    requires MatchAt([c] + x) == None
    ensures Replace([c] + x, values) == Substitution([c] + Replace(x, values).text, Replace(x, values).warnings)
  {
    var s := [c] + x;
    assert s[1..] == x;
    RewriteAllConcat([Literal(c)], Tokenize(x), values);
  }

  /** Right after a character that is no separator, no known placeholder starts. */
  lemma NoKnownAfterRunChar(u: string, i: nat, values: map<string, Value>)
    requires KnownPlaceholdersIsolated(u, values) && 0 < i <= |u| && IsRunChar(u[i - 1])
    ensures !StartsWithKnown(u[i..], values)
  {
    if i == |u| {
      assert u[i..] == [];
    }
  }

  lemma PlaceholderRunChars(name: string)
    requires IsName(name)
    ensures forall i | 0 <= i < |Placeholder(name)| :: IsRunChar(Placeholder(name)[i])
  {
    forall i | 0 <= i < |Placeholder(name)| ensures IsRunChar(Placeholder(name)[i]) {
      if 2 <= i < |name| + 2 {
        AllWordCharsIndex(name, i - 2);
      }
    }
  }

  /** The token case of `HeadPreserved`: an unknown placeholder is kept as it is. */
  lemma HeadAfterUnknown(name: string, t: string, values: map<string, Value>)
    requires IsName(name) && name !in values
    requires LeadingRun(Replace(t, values).text) == LeadingRun(t)
    ensures LeadingRun(Replace(Placeholder(name) + t, values).text) == LeadingRun(Placeholder(name) + t)
  {
    ReplacePlaceholderPrefix(name, t, values);
    PlaceholderRunChars(name);
    LeadingRunOfRunPrefix(Placeholder(name), Replace(t, values).text);
    LeadingRunOfRunPrefix(Placeholder(name), t);
  }

  /** The literal case of `HeadPreserved`. */
  lemma HeadAfterLiteral(c: char, t: string, values: map<string, Value>)
    requires MatchAt([c] + t) == None
    requires IsRunChar(c) ==> LeadingRun(Replace(t, values).text) == LeadingRun(t)
    ensures LeadingRun(Replace([c] + t, values).text) == LeadingRun([c] + t)
  {
    ReplaceLiteralHead(c, t, values);
    assert ([c] + Replace(t, values).text)[1..] == Replace(t, values).text;
    assert ([c] + t)[1..] == t;
  }

  /** Substitution leaves the leading run alone when no known placeholder starts
      the text: a rendering only ever follows a separator. */
  lemma {:induction false} HeadPreserved(u: string, values: map<string, Value>)
    requires KnownPlaceholdersIsolated(u, values) && !StartsWithKnown(u, values)
    ensures LeadingRun(Replace(u, values).text) == LeadingRun(u)
    decreases |u|
  {
    if u != [] {
      match MatchAt(u)
      case Some(k) =>
        var name := NameOf(u[..k]);
        var t := u[k..];
        assert u[..k] == Placeholder(name) && u == Placeholder(name) + t;
        IsolatedSuffix(u, k, values);
        NoKnownAfterRunChar(u, k, values);
        HeadPreserved(t, values);
        HeadAfterUnknown(name, t, values);
      case None =>
        var t := u[1..];
        assert u == [u[0]] + t;
        if IsRunChar(u[0]) {
          IsolatedSuffix(u, 1, values);
          NoKnownAfterRunChar(u, 1, values);
          HeadPreserved(t, values);
        }
        HeadAfterLiteral(u[0], t, values);
    }
  }

  /** The token case of `ReplaceIdempotent`. */
  lemma IdempotentAfterToken(name: string, t: string, values: map<string, Value>)
    requires IsName(name) && RenderingsWithoutOpenBrace(values)
    requires Replace(Replace(t, values).text, values) == Replace(t, values)
    ensures var once := Replace(Placeholder(name) + t, values);
            Replace(once.text, values) == once
  {
    ReplacePlaceholderPrefix(name, t, values);
    var x := Replace(t, values).text;
    if name in values {
      ReplaceLiteralPrefix(Render(values[name]), x, values);
    } else {
      ReplacePlaceholderPrefix(name, x, values);
    }
  }

  /** The literal case of `ReplaceIdempotent`. */
  lemma IdempotentAfterLiteral(c: char, t: string, values: map<string, Value>)
    requires MatchAt([c] + t) == None
    requires Replace(Replace(t, values).text, values) == Replace(t, values)
    requires IsRunChar(c) ==> LeadingRun(Replace(t, values).text) == LeadingRun(t)
    ensures var once := Replace([c] + t, values);
            Replace(once.text, values) == once
  {
    var x := Replace(t, values).text;
    ReplaceLiteralHead(c, t, values);
    SameHeadSameMatch(c, t, x);
    ReplaceLiteralHead(c, x, values);
  }

  /** Two texts with the same leading run behind the same character match alike. */
  lemma SameHeadSameMatch(c: char, t: string, x: string)
    requires IsRunChar(c) ==> LeadingRun(x) == LeadingRun(t)
    ensures MatchAt([c] + x) == MatchAt([c] + t)
  {
    assert ([c] + x)[1..] == x && ([c] + t)[1..] == t;
    assert LeadingRun([c] + x) == LeadingRun([c] + t);
    MatchAtOfLeadingRun([c] + x);
    MatchAtOfLeadingRun([c] + t);
  }

  /** `replacePlaceholders` applied to its own output changes nothing, when no
      rendering has an opening brace and the known placeholders are isolated. */
  lemma {:induction false} ReplaceIdempotent(s: string, values: map<string, Value>)
    requires RenderingsWithoutOpenBrace(values)
    requires KnownPlaceholdersIsolated(s, values)
    ensures Replace(Replace(s, values).text, values) == Replace(s, values)
    decreases |s|
  {
    if s != [] {
      match MatchAt(s)
      case Some(k) =>
        var name := NameOf(s[..k]);
        var t := s[k..];
        assert s[..k] == Placeholder(name) && s == Placeholder(name) + t;
        IsolatedSuffix(s, k, values);
        ReplaceIdempotent(t, values);
        IdempotentAfterToken(name, t, values);
      case None =>
        var t := s[1..];
        assert s == [s[0]] + t;
        IsolatedSuffix(s, 1, values);
        ReplaceIdempotent(t, values);
        if IsRunChar(s[0]) {
          NoKnownAfterRunChar(s, 1, values);
          HeadPreserved(t, values);
        }
        IdempotentAfterLiteral(s[0], t, values);
    }
  }

  /** A brace in front of `{{` starts no placeholder, so it is copied in front of
      the substituted rest. */
  lemma KeepBrace(x: string, values: map<string, Value>)
    requires |x| >= 2 && x[0] == '{' && x[1] == '{'
    ensures Replace("{" + x, values) == Substitution("{" + Replace(x, values).text, Replace(x, values).warnings)
  {
    assert ("{" + x)[2] == '{';
    ReplaceLiteralHead('{', x, values);
  }

  /** The first pass over `{{{{N}}}}` keeps the outer braces and fills in the inner
      placeholder, without a warning. */
  lemma NestedFirstPass(name: string, values: map<string, Value>)
    requires IsName(name) && name in values
    ensures Replace("{{" + Placeholder(name) + "}}", values) == Substitution("{{" + Render(values[name]) + "}}", [])
  {
    var r := Render(values[name]);
    var inner := Placeholder(name) + "}}";
    assert "{{" + Placeholder(name) + "}}" == "{" + ("{" + inner);
    assert "{{" + r + "}}" == "{" + ("{" + (r + "}}"));
    InnerPass(name, values);
    KeepBrace(inner, values);
    KeepBrace("{" + inner, values);
  }

  /** The inner `{{N}}}}` of `{{{{N}}}}` becomes the rendering followed by `}}`. */
  lemma InnerPass(name: string, values: map<string, Value>)
    requires IsName(name) && name in values
    ensures Replace(Placeholder(name) + "}}", values) == Substitution(Render(values[name]) + "}}", [])
  {
    ReplaceWithoutOpenBrace("}}", values);
    ReplacePlaceholderPrefix(name, "}}", values);
  }

  /** Without isolation a second pass can find a placeholder the first pass built:
      `"{{{{N}}}}"` with `N = 4` becomes `"{{4}}"`, which the next pass reports as a
      missing placeholder `4`. */
  lemma NestedPlaceholderRescanned(name: string, values: map<string, Value>)
    requires IsName(name) && name in values
    requires IsName(Render(values[name])) && Render(values[name]) !in values
    ensures var once := Replace("{{" + Placeholder(name) + "}}", values);
            && once == Substitution(Placeholder(Render(values[name])), [])
            && Replace(once.text, values) == Substitution(once.text, [MissingPlaceholder(Render(values[name]))])
  {
    NestedFirstPass(name, values);
    UnknownPlaceholderKept(Render(values[name]), values);
  }

  /** When the built name is known too, the second pass changes the text: with
      `N = 4` and `4 = 5`, `"{{{{N}}}}"` becomes `"{{4}}"` and then `"5"`. */
  lemma NestedPlaceholderTextChanges(name: string, values: map<string, Value>)
    requires IsName(name) && name in values
    requires IsName(Render(values[name])) && Render(values[name]) in values
    requires '{' !in Render(values[Render(values[name])])
    ensures var once := Replace("{{" + Placeholder(name) + "}}", values);
            && once == Substitution(Placeholder(Render(values[name])), [])
            && Replace(once.text, values) == Substitution(Render(values[Render(values[name])]), [])
            && Replace(once.text, values).text != once.text
  {
    var r := Render(values[name]);
    NestedFirstPass(name, values);
    KnownPlaceholderReplaced(r, values);
    assert Placeholder(r)[0] == '{';
  }
}
