/**
  Initials for avatars (app/lib/stringUtils.ts): the first letters of the
  first two space-separated words, or else the first two characters, in
  upper case (ASCII letters only).
*/
module StringUtils {
  import Text
  import Seqs

  predicate NonEmpty(w: string) {
    |w| > 0
  }

  /** `name.split(' ').filter(word => word.length > 0)`: only ' ' separates words. */
  function Words(name: string): (r: seq<string>)
    ensures forall k :: 0 <= k < |r| ==> r[k] != "" && ' ' !in r[k]
  {
    var parts := Text.Split(name, " ");
    Text.SplitPartsAvoidSeparator(name, " ");
    var r := Seqs.Filter(parts, NonEmpty);
    forall k | 0 <= k < |r| ensures ' ' !in r[k] {
      Text.ContainsChar(r[k], ' ');
    }
    r
  }

  /**
    formatIconText: with two or more words, the first characters of the
    first two; otherwise the first two characters of the trimmed text; in
    upper case, and never more than two characters.
  */
  function FormatIconText(text: string): (r: string)
    ensures var words := Words(Text.Trim(text));
      && (|words| >= 2 ==> r == [Text.ToUpperChar(words[0][0]), Text.ToUpperChar(words[1][0])])
      && (|words| < 2 ==> r == Text.ToUpper(Text.Take(Text.Trim(text), 2)))
    ensures |r| <= 2
  {
    var name := Text.Trim(text);
    var words := Words(name);
    if |words| >= 2 then
      Text.ToUpper(Text.Take(words[0], 1) + Text.Take(words[1], 1))
    else
      Text.ToUpper(Text.Take(name, 2))
  }

  /** White space around the text does not change its initials. */
  lemma PaddingIrrelevant(w1: string, t: string, w2: string)
    requires Text.AllWhite(w1) && Text.AllWhite(w2)
    ensures FormatIconText(w1 + t + w2) == FormatIconText(t)
  {
    Text.TrimIgnoresPadding(w1, t, w2);
  }

  lemma WordsAroundSpace(x: string, y: string)
    ensures Words(x + " " + y) == Words(x) + Words(y)
  {
    Text.SplitConcat(x, ' ', y);
    assert x + " " + y == x + [' '] + y;
    Seqs.FilterAppend(Text.Split(x, " "), Text.Split(y, " "), NonEmpty);
  }

  lemma WordsOfSpaceFirst(y: string)
    ensures Words(" " + y) == Words(y)
  {
    WordsAroundSpace("", y);
    assert "" + " " + y == " " + y;
    assert Text.Split("", " ") == [""];
  }

  /** Doubling the space between two parts does not change the initials. */
  lemma RepeatedSpaceIrrelevant(x: string, y: string)
    requires x != "" && y != "" && !Text.IsWhite(x[0]) && !Text.IsWhite(y[|y| - 1])
    ensures FormatIconText(x + "  " + y) == FormatIconText(x + " " + y)
  {
    var one := x + " " + y;
    var two := x + "  " + y;
    assert one[0] == x[0] && one[|one| - 1] == y[|y| - 1];
    assert two[0] == x[0] && two[|two| - 1] == y[|y| - 1];
    Text.TrimOfTrimmed(one);
    Text.TrimOfTrimmed(two);
    WordsDoubleSpace(x, y);
    TakeDoubleSpace(x, y);
  }

  lemma WordsDoubleSpace(x: string, y: string)
    ensures Words(x + "  " + y) == Words(x + " " + y)
  {
    assert x + "  " + y == x + " " + (" " + y);
    WordsAroundSpace(x, " " + y);
    WordsOfSpaceFirst(y);
    WordsAroundSpace(x, y);
  }

  lemma TakeDoubleSpace(x: string, y: string)
    requires x != ""
    ensures Text.Take(x + "  " + y, 2) == Text.Take(x + " " + y, 2)
  {
    var one := x + " " + y;
    var two := x + "  " + y;
    if |x| >= 2 { assert two[..2] == x[..2] == one[..2]; }
    else { assert two[..2] == x + " " == one[..2]; }
  }

  /** A text without spaces is one word at most: its initials are its first two characters. */
  lemma OneWordInitials(w: string)
    requires ' ' !in w && (w != "" ==> !Text.IsWhite(w[0]) && !Text.IsWhite(w[|w| - 1]))
    ensures FormatIconText(w) == Text.ToUpper(Text.Take(w, 2))
  {
    Text.TrimOfTrimmed(w);
    Text.ContainsChar(w, ' ');
    Text.SplitWithoutMatch(w, " ");
  }

  /** Two words joined by a space give their first letters. */
  lemma TwoWordInitials(a: string, b: string)
    requires a != "" && b != "" && ' ' !in a && ' ' !in b
    requires !Text.IsWhite(a[0]) && !Text.IsWhite(b[|b| - 1])
    ensures FormatIconText(a + " " + b) == [Text.ToUpperChar(a[0]), Text.ToUpperChar(b[0])]
  {
    Text.TrimOfTrimmed(a + " " + b);
    WordsAroundSpace(a, b);
    Text.ContainsChar(a, ' ');
    Text.SplitWithoutMatch(a, " ");
    Text.ContainsChar(b, ' ');
    Text.SplitWithoutMatch(b, " ");
  }

  /** A tab does not separate words. */
  lemma TabIsNoSeparator()
    ensures FormatIconText("ab\tcd") == "AB"
  {
    var w := "ab\tcd";
    OneWordInitials(w);
    assert Text.Take(w, 2) == "ab";
  }

  /** A space does. */
  lemma SpaceSeparates()
    ensures FormatIconText("ab cd") == "AC"
  {
    TwoWordInitials("ab", "cd");
    assert "ab" + " " + "cd" == "ab cd";
  }

  /** Empty or blank text has no initials. */
  lemma BlankHasNoInitials(text: string)
    requires Text.AllWhite(text)
    ensures FormatIconText(text) == ""
  {
    Text.TrimEmptyIffAllWhite(text);
    assert Text.Split("", " ") == [""];
  }
}
