/**
 Generated subdomains (`slugifySubdomainSeed`, `buildSubdomainCandidate`, routers/services.ts),
 by the words of the name they are made from.
 */
module Subdomains {
  import opened Text
  import opened RouteStrings

  // ---- The words of a name ---------------------------------------------------------

  /** The letters and digits a text starts with, and the further runs of them. */
  function Parts(s: string): (string, seq<string>) {
    if s == "" then ("", [])
    else
      var p := Parts(s[1..]);
      if IsAlnum(s[0]) then ([s[0]] + p.0, p.1) else ("", Together(p))
  }

  function Together(p: (string, seq<string>)): seq<string> {
    (if p.0 == "" then [] else [p.0]) + p.1
  }

  /** The runs of letters and digits in a text. */
  function Words(s: string): seq<string> {
    Together(Parts(s))
  }

  lemma PartsOther(c: char, s: string)
    requires !IsAlnum(c)
    ensures Parts([c] + s) == ("", Words(s)) && Words([c] + s) == Words(s)
  {
    assert ([c] + s)[1..] == s;
    assert [] + Words(s) == Words(s);
  }

  lemma PartsAlnum(c: char, s: string)
    requires IsAlnum(c)
    ensures Parts([c] + s) == ([c] + Parts(s).0, Parts(s).1)
  {
    assert ([c] + s)[1..] == s;
  }

  /** What is no letter or digit ends a word, and at the end of a text it makes no difference. */
  lemma {:induction false} PartsLast(s: string, c: char)
    requires !IsAlnum(c)
    ensures Parts(s + [c]) == Parts(s)
  {
    hide IsAlnum;
    if s == "" {
      PartsOther(c, "");
      assert s + [c] == [c] + "" && Words("") == [];
    } else {
      assert (s + [c])[1..] == s[1..] + [c];
      PartsLast(s[1..], c);
    }
  }

  // ---- Each step keeps the words ---------------------------------------------------

  lemma {:induction false} ReplacedWords(s: string)
    ensures Parts(ReplaceOthers(s)) == Parts(s)
  {
    hide IsAlnum;
    if s != "" {
      var rest := s[1..];
      ReplacedWords(rest);
      assert s == [s[0]] + rest;
      assert !IsAlnum('-') by { DashIsOther(); }
      if IsAlnum(s[0]) {
        PartsAlnum(s[0], ReplaceOthers(rest));
      } else {
        PartsOther(s[0], rest);
        PartsOther('-', ReplaceOthers(rest));
        if |s| > 1 && !IsAlnum(s[1]) {
          assert rest == [rest[0]] + rest[1..];
          PartsOther(rest[0], rest[1..]);
          assert Together(("", Words(rest[1..]))) == Words(rest[1..]);
        }
      }
    }
  }

  lemma DashIsOther()
    ensures !IsAlnum('-')
  {
  }

  lemma {:induction false} CollapsedWords(s: string)
    ensures Parts(CollapseDashes(s)) == Parts(s)
  {
    hide IsAlnum;
    if s != "" {
      var rest := s[1..];
      CollapsedWords(rest);
      assert s == [s[0]] + rest;
      DashIsOther();
      if s[0] == '-' {
        PartsOther('-', rest);
        PartsOther('-', CollapseDashes(rest));
        if |s| > 1 && s[1] == '-' {
          assert rest == ['-'] + rest[1..];
          PartsOther('-', rest[1..]);
          assert Together(("", Words(rest[1..]))) == Words(rest[1..]);
        }
      } else if IsAlnum(s[0]) {
        PartsAlnum(s[0], CollapseDashes(rest));
      } else {
        PartsOther(s[0], rest);
        PartsOther(s[0], CollapseDashes(rest));
      }
    }
  }

  lemma {:induction false} StartWords(s: string)
    ensures Words(DropStartDashes(s)) == Words(s)
  {
    hide IsAlnum;
    if s != "" && s[0] == '-' {
      StartWords(s[1..]);
      DashIsOther();
      PartsOther('-', s[1..]);
      assert s == ['-'] + s[1..];
    }
  }

  lemma {:induction false} EndWords(s: string)
    ensures Words(DropEndDashes(s)) == Words(s)
    decreases |s|
  {
    hide IsAlnum;
    if s != "" && s[|s| - 1] == '-' {
      EndWords(s[..|s| - 1]);
      DashIsOther();
      PartsLast(s[..|s| - 1], '-');
      assert s == s[..|s| - 1] + ['-'];
    }
  }

  lemma SpaceIsOther(c: char)
    requires IsSpace(c)
    ensures !IsAlnum(c) && LowerChar(c) == c
  {
  }

  lemma LowerFirst(c: char, s: string)
    requires LowerChar(c) == c
    ensures ToLower([c] + s) == [c] + ToLower(s)
  {
    assert ([c] + s)[1..] == s;
  }

  lemma WordsBehind(c: char, s: string)
    requires IsSpace(c)
    ensures Words(ToLower([c] + s)) == Words(ToLower(s))
  {
    hide *;
    SpaceIsOther(c);
    LowerFirst(c, s);
    PartsOther(c, ToLower(s));
  }

  lemma {:induction false} BlankStartWords(blank: string, s: string)
    requires AllSpace(blank)
    ensures Words(ToLower(blank + s)) == Words(ToLower(s))
  {
    hide Words, ToLower, IsSpace;
    if blank == "" {
      assert blank + s == s;
    } else {
      BlankStartWords(blank[1..], s);
      WordsBehind(blank[0], blank[1..] + s);
      assert blank + s == [blank[0]] + (blank[1..] + s);
    }
  }

  lemma {:induction false} BlankEndWords(s: string, blank: string)
    requires AllSpace(blank)
    ensures Words(ToLower(s + blank)) == Words(ToLower(s))
    decreases |blank|
  {
    hide IsAlnum, IsSpace, LowerChar;
    if blank == "" {
      assert s + blank == s;
    } else {
      var c, rest := blank[|blank| - 1], s + blank[..|blank| - 1];
      BlankEndWords(s, blank[..|blank| - 1]);
      SpaceIsOther(c);
      assert s + blank == rest + [c];
      assert ToLower(rest + [c]) == ToLower(rest) + [c] by { LowerAppend(rest, [c]); assert ToLower([c]) == [c]; }
      PartsLast(ToLower(rest), c);
    }
  }

  lemma TrimmedWords(s: string)
    ensures Words(ToLower(Trim(s))) == Words(ToLower(s))
  {
    var t := TrimStart(s);
    LeadAndRest(s);
    RestAndTrail(t);
    BlankStartWords(LeadingSpace(s), t);
    BlankEndWords(TrimEnd(t), TrailingSpace(t));
    hide Words, ToLower, TrimStart, TrimEnd, LeadingSpace, TrailingSpace;
    assert Trim(s) == TrimEnd(t);
  }

  // ---- A text of words and single dashes -------------------------------------------

  /** No two dashes next to each other. */
  ghost predicate SingleDashes(s: string) {
    forall i :: 0 <= i < |s| - 1 ==> !(s[i] == '-' && s[i + 1] == '-')
  }

  lemma {:induction false} CollapsedSingle(s: string)
    ensures SingleDashes(CollapseDashes(s))
    ensures s != "" ==> CollapseDashes(s) != "" && CollapseDashes(s)[0] == s[0]
  {
    if s != "" {
      CollapsedSingle(s[1..]);
      if !(s[0] == '-' && |s| > 1 && s[1] == '-') {
        assert CollapseDashes(s) == [s[0]] + CollapseDashes(s[1..]);
      }
    }
  }

  lemma {:induction false} StartSingle(s: string)
    requires SingleDashes(s)
    ensures SingleDashes(DropStartDashes(s))
  {
    if s != "" && s[0] == '-' {
      assert forall i :: 0 <= i < |s[1..]| ==> s[1..][i] == s[i + 1];
      StartSingle(s[1..]);
    }
  }

  lemma {:induction false} EndSingle(s: string)
    requires SingleDashes(s)
    ensures SingleDashes(DropEndDashes(s))
    ensures |DropEndDashes(s)| >= |s| - 1
    decreases |s|
  {
    if s != "" && s[|s| - 1] == '-' {
      EndSingle(s[..|s| - 1]);
      assert |s| > 1 ==> s[|s| - 2] != '-';
    }
  }

  function Dashed(words: seq<string>): string {
    if words == [] then "" else "-" + words[0] + Dashed(words[1..])
  }

  /** Letters, digits and single dashes, with no dash at the end. */
  ghost predicate Neat(s: string) {
    SlugChars(s) && SingleDashes(s) && (s != "" ==> IsAlnum(s[|s| - 1]))
  }

  lemma {:induction false} NeatIsParts(s: string)
    requires Neat(s)
    ensures s == Parts(s).0 + Dashed(Parts(s).1)
  {
    if s == "" {
    } else {
      var c, rest := s[0], s[1..];
      NeatRest(s);
      hide Neat, SlugChars, SingleDashes, IsAlnum;
      NeatIsParts(rest);
      assert s == [c] + rest;
      var p := Parts(rest);
      if IsAlnum(c) {
        assert [c] + p.0 + Dashed(p.1) == [c] + (p.0 + Dashed(p.1));
      } else {
        assert c == '-' && rest != "" && IsAlnum(rest[0]);
        assert rest == [rest[0]] + rest[1..] && p.0 != "";
        assert Together(p) == [p.0] + p.1 && ([p.0] + p.1)[1..] == p.1;
        assert "-" + p.0 + Dashed(p.1) == "-" + (p.0 + Dashed(p.1));
      }
    }
  }

  lemma NeatRest(s: string)
    requires Neat(s) && s != ""
    ensures Neat(s[1..]) && (!IsAlnum(s[0]) ==> s[0] == '-' && s[1..] != "" && IsAlnum(s[1..][0]))
  {
    assert forall i :: 0 <= i < |s[1..]| ==> s[1..][i] == s[i + 1];
    assert |s| > 1 ==> IsAlnum(s[1]) || s[1] == '-';
  }

  lemma {:induction false} DashedIsJoin(first: string, words: seq<string>)
    ensures first + Dashed(words) == Join([first] + words, '-')
    decreases |words|
  {
    if words == [] {
      assert first + "" == first;
    } else {
      DashedIsJoin(words[0], words[1..]);
      assert [words[0]] + words[1..] == words && ([first] + words)[1..] == words;
      assert first + ("-" + words[0] + Dashed(words[1..])) == first + "-" + (words[0] + Dashed(words[1..]));
    }
  }

  /** Such a text, with no dash in front either, is its words with a dash between any two. */
  lemma NeatIsJoined(s: string)
    requires Neat(s) && (s != "" ==> IsAlnum(s[0]))
    ensures s == Join(Words(s), '-') && (s == "" <==> Words(s) == [])
  {
    NeatIsParts(s);
    hide Neat, IsAlnum;
    var p := Parts(s);
    if s != "" {
      assert s == [s[0]] + s[1..] && p.0 != "";
      DashedIsJoin(p.0, p.1);
      assert Together(p) == [p.0] + p.1;
    }
  }

  // ---- The slug and the candidate --------------------------------------------------

  lemma SlugNeat(s: string)
    ensures var t := DropEndDashes(DropStartDashes(CollapseDashes(ReplaceOthers(s))));
      Neat(t) && (t != "" ==> IsAlnum(t[0])) && Words(t) == Words(s)
  {
    var a := ReplaceOthers(s);
    var b := CollapseDashes(a);
    var c := DropStartDashes(b);
    ReplacedChars(s);
    ReplacedWords(s);
    CollapsedChars(a);
    CollapsedWords(a);
    CollapsedSingle(a);
    StartDropped(b);
    StartWords(b);
    StartSingle(b);
    EndDropped(c);
    EndWords(c);
    EndSingle(c);
    hide SlugChars, SingleDashes, IsAlnum, ReplaceOthers, CollapseDashes, DropStartDashes, DropEndDashes;
    assert DropEndDashes(c) != "" ==> DropEndDashes(c)[0] == c[0];
  }

  /** A slug is the runs of letters and digits of the name, in lower case, with single dashes between them. */
  lemma SlugMeans(input: string)
    ensures var words := Words(ToLower(input));
      Slugify(input) == if words == [] then "service" else Join(words, '-')
  {
    TrimmedWords(input);
    SlugNeat(ToLower(Trim(input)));
    hide Words, Neat, IsAlnum, ToLower, Trim, ReplaceOthers, CollapseDashes, DropStartDashes, DropEndDashes;
    NeatIsJoined(DropEndDashes(DropStartDashes(CollapseDashes(ReplaceOthers(ToLower(Trim(input)))))));
  }

  /** A candidate is the slug, cut if it is too long for a label, a dash, and the suffix. */
  lemma CandidateMeans(input: string, suffix: string) returns (start: string)
    requires 1 <= |suffix| <= 50
    ensures Candidate(Slugify(input), suffix) == start + "-" + suffix
    ensures start <= Slugify(input) && |start| + 1 + |suffix| <= 63
    ensures |Slugify(input)| + 1 + |suffix| <= 63 ==> start == Slugify(input)
    ensures |start| < |Slugify(input)| ==> |start| + 1 + |suffix| >= 62
  {
    var seed, limit := Slugify(input), 62 - |suffix|;
    SlugifyIsSlug(input);
    SeedSingle(input);
    hide Slugify;
    var cut := if |seed| <= limit then seed else seed[..limit];
    start := DropEndDashes(cut);
    EndSingle(cut);
    assert SlugChars(cut);
    EndDropped(cut);
    if |seed| <= limit { EndKept(seed); }
  }

  lemma SeedSingle(input: string)
    ensures SingleDashes(Slugify(input))
  {
    SlugNeat(ToLower(Trim(input)));
    hide Words, SlugChars, IsAlnum, ToLower, Trim, ReplaceOthers, CollapseDashes, DropStartDashes, DropEndDashes;
  }

  lemma EndKept(s: string)
    requires s != "" && IsAlnum(s[|s| - 1])
    ensures DropEndDashes(s) == s
  {
  }
}
