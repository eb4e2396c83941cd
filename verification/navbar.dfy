/** The avatar fallback of the navigation bar (apps/web/src/components/navbar.tsx, `getInitials`). */
module Navbar {
  import opened Strings

  /** What is shown for a name with no words. */
  const DefaultInitials := "CM"

  /** `token[0]?.toUpperCase() ?? ''`: the upper-cased first character, if any. */
  function InitialOf(token: string): (r: string)
    ensures token != [] ==> r == [UpperChar(token[0])]
    ensures token == [] ==> r == []
  {
    if token == [] then [] else [UpperChar(token[0])]
  }

  /** The initials of a list of words: the default for none, else those of the first two. */
  function InitialsOfWords(tokens: seq<string>): string {
    if tokens == [] then DefaultInitials
    else if |tokens| == 1 then InitialOf(tokens[0])
    else InitialOf(tokens[0]) + InitialOf(tokens[1])
  }

  /**
   * `getInitials`: the initials of the first two words of the name, or the
   * default when it has none. `trim().split(/\s+/).filter(Boolean)` yields
   * exactly the name's maximal runs of non-whitespace.
   */
  function GetInitials(name: string): (r: string)
    ensures Words(name) == [] ==> r == DefaultInitials
    ensures Words(name) != [] ==> |r| == if |Words(name)| == 1 then 1 else 2
    ensures Words(name) != [] ==> r[0] == UpperChar(Words(name)[0][0])
    ensures |Words(name)| >= 2 ==> r[1] == UpperChar(Words(name)[1][0])
  {
    WordsOfTrim(name);
    InitialsOfWords(Words(Trim(name)))
  }

  /** Names with the same words have the same initials. */
  lemma SameWordsSameInitials(a: string, b: string)
    requires Words(a) == Words(b)
    ensures GetInitials(a) == GetInitials(b)
  {
    WordsOfTrim(a);
    WordsOfTrim(b);
  }

  /** A blank name shows the default initials. */
  lemma BlankNameGivesDefault(name: string)
    requires AllSpace(name)
    ensures GetInitials(name) == DefaultInitials
  {
  }

  lemma WordsOfTwo(first: string, gap: string, second: string, rest: string)
    requires first != [] && NoSpace(first) && second != [] && NoSpace(second)
    requires gap != [] && AllSpace(gap)
    requires rest == [] || IsSpace(rest[0])
    ensures Words(first + gap + second + rest) == [first, second] + Words(rest)
  {
    var name := first + gap + second + rest;
    assert name == first + (gap + (second + rest));
    assert gap[0] in gap;
    FirstWord(first, gap + (second + rest));
    WordsSkipSpace(gap, second + rest);
    FirstWord(second, rest);
  }

  /** Two words and whatever follows: only the two first letters count, upper-cased, in order. */
  lemma OnlyFirstTwoWordsCount(first: string, gap: string, second: string, rest: string)
    requires first != [] && NoSpace(first) && second != [] && NoSpace(second)
    requires gap != [] && AllSpace(gap)
    requires rest == [] || IsSpace(rest[0])
    ensures GetInitials(first + gap + second + rest) == [UpperChar(first[0]), UpperChar(second[0])]
  {
    var name := first + gap + second + rest;
    var tokens := [first, second] + Words(rest);
    WordsOfTwo(first, gap, second, rest);
    WordsOfTrim(name);
    assert GetInitials(name) == InitialsOfWords(tokens);
    assert tokens[0] == first && tokens[1] == second;
  }

  /** Padding the name with whitespace does not change its initials. */
  lemma PaddingIsIgnored(lead: string, name: string, trail: string)
    requires AllSpace(lead) && AllSpace(trail)
    ensures GetInitials(lead + name + trail) == GetInitials(name)
  {
    assert lead + name + trail == lead + (name + trail);
    WordsSkipSpace(lead, name + trail);
    WordsSkipTrailingSpace(name, trail);
    SameWordsSameInitials(lead + name + trail, name);
  }

  /** Widening or narrowing a run of whitespace between words does not change the initials. */
  lemma GapWidthIsIgnored(a: string, gap: string, wider: string, b: string)
    requires gap != [] && AllSpace(gap) && wider != [] && AllSpace(wider)
    ensures GetInitials(a + gap + b) == GetInitials(a + wider + b)
  {
    WordsAcrossGap(a, gap, b);
    WordsAcrossGap(a, wider, b);
    SameWordsSameInitials(a + gap + b, a + wider + b);
  }

  /** The fallback site's name gives `TN`. */
  lemma FallbackNameInitials()
    ensures GetInitials("Tu Nombre") == "TN"
  {
    assert "Tu Nombre" == "Tu" + " " + "Nombre" + [];
    assert NoSpace("Tu") by {
      GraphicIsNotSpace('T');
      GraphicIsNotSpace('u');
    }
    assert NoSpace("Nombre") by {
      GraphicIsNotSpace('N');
      GraphicIsNotSpace('o');
      GraphicIsNotSpace('m');
      GraphicIsNotSpace('b');
      GraphicIsNotSpace('r');
      GraphicIsNotSpace('e');
    }
    OnlyFirstTwoWordsCount("Tu", " ", "Nombre", []);
  }
}
