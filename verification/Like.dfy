/**
 ILIKE over the pattern the alert search builds, '%' || search || '%'. The search
 text is not escaped: `%` and `_` in it are wildcards and `\` escapes what follows.
 Case folding is over ASCII letters.
 */
module Like {
  /** One element of a parsed pattern: any text, any one character, or the character itself. */
  datatype Elem = AnyText | AnyChar | Lit(c: char)

  function LowerChar(c: char): char {
    if 'A' <= c <= 'Z' then ((c as int) - ('A' as int) + ('a' as int)) as char else c
  }

  function Lower(s: string): (t: string)
    ensures |t| == |s|
  {
    seq(|s|, i requires 0 <= i < |s| => LowerChar(s[i]))
  }

  /** A backslash at the very end stands for itself; no pattern built by Around ends with one. */
  function Parse(p: string): seq<Elem>
    decreases |p|
  {
    if p == "" then []
    else if p[0] == '%' then [AnyText] + Parse(p[1..])
    else if p[0] == '_' then [AnyChar] + Parse(p[1..])
    else if p[0] == '\\' && |p| > 1 then [Lit(p[1])] + Parse(p[2..])
    else [Lit(p[0])] + Parse(p[1..])
  }

  predicate Match(es: seq<Elem>, t: string)
    decreases |es| + |t|
  {
    if es == [] then t == ""
    else match es[0]
      case AnyText => Match(es[1..], t) || (t != "" && Match(es, t[1..]))
      case AnyChar => t != "" && Match(es[1..], t[1..])
      case Lit(c) => t != "" && t[0] == c && Match(es[1..], t[1..])
  }

  function Around(search: string): string {
    "%" + search + "%"
  }

  predicate ILike(t: string, pattern: string) {
    Match(Parse(Lower(pattern)), Lower(t))
  }

  /** s is a prefix of some suffix of t. */
  predicate Occurs(s: string, t: string)
    decreases |t|
  {
    s <= t || (t != "" && Occurs(s, t[1..]))
  }

  lemma {:induction false} OccursInShort(s: string, t: string)
    requires Occurs(s, t)
    ensures |s| <= |t| && (|s| == |t| ==> s == t)
    decreases |t|
  {
    if !(s <= t) {
      OccursInShort(s, t[1..]);
    }
  }

  predicate IsMeta(c: char) {
    c == '%' || c == '_' || c == '\\'
  }

  predicate NoMeta(s: string) {
    forall i :: 0 <= i < |s| ==> !IsMeta(s[i])
  }

  // ------------------------------------------- plain text is matched literally

  function Lits(s: string): seq<Elem> {
    seq(|s|, i requires 0 <= i < |s| => Lit(s[i]))
  }

  lemma {:induction false} ParsePlain(s: string)
    requires NoMeta(s)
    ensures Parse(s + "%") == Lits(s) + [AnyText]
    decreases |s|
  {
    if s == "" {
      assert "" + "%" == "%" && "%"[1..] == "";
    } else {
      assert (s + "%")[1..] == s[1..] + "%";
      ParsePlain(s[1..]);
      assert Lits(s) == [Lit(s[0])] + Lits(s[1..]);
    }
  }

  lemma {:induction false} AnyTextMatches(t: string)
    ensures Match([AnyText], t)
    decreases |t|
  {
    assert [AnyText][1..] == [];
    if t != "" {
      AnyTextMatches(t[1..]);
    }
  }

  lemma {:induction false} LitsMatchPrefix(s: string, t: string)
    ensures Match(Lits(s) + [AnyText], t) <==> s <= t
    decreases |s|
  {
    if s == "" {
      assert Lits(s) + [AnyText] == [AnyText];
      AnyTextMatches(t);
    } else {
      assert (Lits(s) + [AnyText])[1..] == Lits(s[1..]) + [AnyText];
      if t != "" {
        LitsMatchPrefix(s[1..], t[1..]);
        assert s == [s[0]] + s[1..] && t == [t[0]] + t[1..];
      }
    }
  }

  lemma {:induction false} LitsMatchAnywhere(s: string, t: string)
    ensures Match([AnyText] + (Lits(s) + [AnyText]), t) <==> Occurs(s, t)
    decreases |t|
  {
    var es := [AnyText] + (Lits(s) + [AnyText]);
    assert es[1..] == Lits(s) + [AnyText];
    LitsMatchPrefix(s, t);
    if t != "" {
      LitsMatchAnywhere(s, t[1..]);
    }
  }

  // ------------------------------------------------- and metacharacters are not

  /** The shortest text of a pattern, with `a` for any one character. */
  function Sample(es: seq<Elem>): string {
    if es == [] then ""
    else (match es[0] case AnyText => "" case AnyChar => "a" case Lit(c) => [c]) + Sample(es[1..])
  }

  lemma {:induction false} SampleMatches(es: seq<Elem>)
    ensures Match(es, Sample(es))
    decreases |es|
  {
    if es != [] {
      SampleMatches(es[1..]);
      if es[0].AnyText? {
        assert Sample(es) == Sample(es[1..]);
      } else {
        assert Sample(es)[1..] == Sample(es[1..]);
      }
    }
  }

  lemma {:induction false} SampleMisses(s: string)
    ensures |Sample(Parse(s + "%"))| <= |s|
    ensures !NoMeta(s) ==> Sample(Parse(s + "%")) != s
    decreases |s|
  {
    var p := s + "%";
    if s == "" {
      assert p == "%" && p[1..] == "";
    } else if s[0] == '\\' {
      if |s| == 1 {
        assert p[2..] == "";
      } else {
        assert p[2..] == s[2..] + "%";
        SampleMisses(s[2..]);
      }
    } else {
      assert p[1..] == s[1..] + "%";
      SampleMisses(s[1..]);
      assert !NoMeta(s) && !IsMeta(s[0]) ==> !NoMeta(s[1..]);
      assert s == [s[0]] + s[1..];
      if !IsMeta(s[0]) {
        assert Sample(Parse(p)) == [s[0]] + Sample(Parse(s[1..] + "%"));
      }
    }
  }

  predicate IsLower(s: string) {
    forall i :: 0 <= i < |s| ==> LowerChar(s[i]) == s[i]
  }

  lemma {:induction false} SampleIsLower(p: string)
    requires IsLower(p)
    ensures IsLower(Sample(Parse(p)))
    decreases |p|
  {
    if p != "" {
      if p[0] == '\\' && |p| > 1 {
        SampleIsLower(p[2..]);
      } else {
        SampleIsLower(p[1..]);
      }
    }
  }

  /** The documented substring search, for every title. */
  ghost predicate SearchIsSubstring(search: string) {
    forall title: string :: ILike(title, Around(search)) <==> Occurs(Lower(search), Lower(title))
  }

  lemma LowerAround(s: string)
    ensures Lower(Around(s)) == "%" + (Lower(s) + "%")
    ensures Parse(Lower(Around(s))) == [AnyText] + Parse(Lower(s) + "%")
    ensures NoMeta(Lower(s)) <==> NoMeta(s)
  {
    var p := "%" + (Lower(s) + "%");
    assert Lower(Around(s)) == p;
    assert p[1..] == Lower(s) + "%";
    assert forall i :: 0 <= i < |s| ==> (IsMeta(Lower(s)[i]) <==> IsMeta(s[i]));
  }

  /** The search is the substring match its documentation promises exactly when the search text
      holds none of `%`, `_` and `\`. */
  lemma SearchIsSubstringExactly(search: string)
    ensures SearchIsSubstring(search) <==> NoMeta(search)
  {
    var s := Lower(search);
    LowerAround(search);
    if NoMeta(search) {
      ParsePlain(s);
      forall title: string
        ensures ILike(title, Around(search)) <==> Occurs(s, Lower(title))
      {
        LitsMatchAnywhere(s, Lower(title));
      }
    } else {
      var es := Parse(s + "%");
      var title := Sample(es);
      SampleMisses(s);
      SampleMatches([AnyText] + es);
      assert ([AnyText] + es)[1..] == es && Sample([AnyText] + es) == "" + title == title;
      SampleIsLower(s + "%");
      assert Lower(title) == title;
      assert ILike(title, Around(search));
      if Occurs(s, title) {
        OccursInShort(s, title);
      }
    }
  }
}
