/**
  The pure text rewrites of the group-schedule extractor
  (schedule/group/group.go): time and teacher-name formatting, the tail of
  `getCleanText`, and the normalisation of a group reference to a URL.
*/
module GroupFormat {
  import opened Text

  const BaseUrl := "https://omsk-osma.ru"
  const GroupPath := "/shedule_kolledzh/"
  const Nbsp: char := '\U{00A0}'

  /** The tail of `getCleanText`: non-breaking spaces become spaces, white
      space is collapsed and the ends are trimmed. The input stands for the
      text of the element after its block tags were turned into spaces. */
  function CleanText(s: string): (r: string)
    ensures Collapsed(r)
  {
    var c := Collapse(ReplaceChar(s, Nbsp, " "));
    CollapseCollapsed(ReplaceChar(s, Nbsp, " "));
    TrimCollapsed(c);
    TrimSpace(c)
  }

  /** `formatTime`: hyphens become spaces; when at least two fields remain,
      the first two are put on two lines, otherwise the hyphen-free text is
      returned as it is. */
  function FormatTime(s: string): (r: string)
    ensures '-' !in r
    ensures r == "" <==> s == ""
  {
    var t := ReplaceChar(s, '-', " ");
    ReplaceRemoves(s, '-', " ");
    ReplaceEmpty(s, '-', " ");
    FieldsChars(t);
    var parts := Fields(t);
    if |parts| >= 2 then
      assert parts[0] in parts && parts[1] in parts;
      parts[0] + "\n" + parts[1]
    else t
  }

  /** The dot rewrite of `formatName`: a space after every period. */
  function Dotted(s: string): string {
    ReplaceChar(s, '.', ". ")
  }

  /** Every period in `w` is its last character. */
  predicate DotsAtEnd(w: string) {
    forall i :: 0 <= i < |w| - 1 ==> w[i] != '.'
  }

  /** Every period in `j` is last or followed by a space. */
  predicate DotsLastOrSpaced(j: string) {
    forall i {:trigger j[i]} :: 0 <= i < |j| && j[i] == '.' ==> i == |j| - 1 || j[i + 1] == ' '
  }

  /** What `formatName` output looks like: collapsed white space, and
      every period last or followed by a space. */
  predicate Formatted(t: string) {
    Collapsed(t) && DotsLastOrSpaced(t)
  }

  /** Every period is last or followed by exactly one space and then a
      character that is not white space. */
  predicate DotsSingleSpaced(r: string) {
    forall i {:trigger r[i]} :: 0 <= i < |r| && r[i] == '.' ==>
      i == |r| - 1 || (r[i + 1] == ' ' && i + 2 < |r| && !IsSpace(r[i + 2]))
  }

  /** Every period in `y` is followed by white space. */
  predicate DotsSpaced(y: string) {
    forall i {:trigger y[i]} :: 0 <= i < |y| && y[i] == '.' ==> i + 1 < |y| && IsSpace(y[i + 1])
  }

  /** `formatName`: a space after every period, white space collapsed, ends
      trimmed. The result is collapsed, and every period in it is either the
      last character or followed by exactly one space. */
  function FormatName(s: string): (r: string)
    ensures Collapsed(r)
    ensures DotsSingleSpaced(r)
  {
    var ws := Fields(Dotted(s));
    JoinCollapsed(ws);
    TrimCollapsed(Join(ws, " "));
    DottedSpaced(s);
    WordsDotsAtEnd(Dotted(s));
    JoinDots(ws);
    SingleSpaceAfterDots(Join(ws, " "));
    TrimSpace(Join(ws, " "))
  }

  /** The `value` to `requestURL` rule of `GetSchedule`: absolute references
      are kept, site paths get the host, bare page names get host and path.
      The result is absolute and ends with the reference. */
  function RequestUrl(value: string): (url: string)
    ensures HasPrefix(url, "http")
    ensures HasPrefix(value, "http") ==> url == value
    ensures |value| <= |url| && url[|url| - |value|..] == value
  {
    if HasPrefix(value, "http") then value
    else if HasPrefix(value, GroupPath) then
      assert (BaseUrl + value)[..4] == "http";
      BaseUrl + value
    else
      assert (BaseUrl + GroupPath + value)[..4] == "http";
      BaseUrl + GroupPath + value
  }

  // ---------------------------------------------------------------------

  lemma {:induction false} DottedSpaced(s: string)
    ensures DotsSpaced(Dotted(s))
    decreases |s|
  {
    if s != [] {
      DottedSpaced(s[1..]);
      var head := if s[0] == '.' then ". " else [s[0]];
      var y := Dotted(s);
      assert y == head + Dotted(s[1..]);
      forall i | 0 <= i < |y| && y[i] == '.'
        ensures i + 1 < |y| && IsSpace(y[i + 1])
      {
        if i >= |head| {
          assert y[i] == Dotted(s[1..])[i - |head|];
          assert i + 1 < |y| ==> y[i + 1] == Dotted(s[1..])[i + 1 - |head|];
        }
      }
    }
  }

  /** In text whose periods are all followed by white space, a period can only
      end a field. */
  lemma {:induction false} WordsDotsAtEnd(y: string)
    requires DotsSpaced(y)
    ensures forall k :: 0 <= k < |Fields(y)| ==> DotsAtEnd(Fields(y)[k])
    decreases |y|
  {
    if y != [] {
      if IsSpace(y[0]) {
        assert DotsSpaced(y[1..]) by {
          forall i | 0 <= i < |y[1..]| && y[1..][i] == '.'
            ensures i + 1 < |y[1..]| && IsSpace(y[1..][i + 1])
          {
            assert y[1..][i] == y[i + 1];
          }
        }
        WordsDotsAtEnd(y[1..]);
      } else {
        var n := WordLen(y);
        assert DotsSpaced(y[n..]) by {
          forall i | 0 <= i < |y[n..]| && y[n..][i] == '.'
            ensures i + 1 < |y[n..]| && IsSpace(y[n..][i + 1])
          {
            assert y[n..][i] == y[n + i];
          }
        }
        WordsDotsAtEnd(y[n..]);
        assert DotsAtEnd(y[..n]) by {
          forall i | 0 <= i < n - 1
            ensures y[..n][i] != '.'
          {
            assert !IsSpace(y[i + 1]);
          }
        }
      }
    }
  }

  /** Joining such fields with spaces leaves every period last or before a space. */
  lemma {:induction false} JoinDots(ws: seq<string>)
    requires AllWords(ws) && forall k :: 0 <= k < |ws| ==> DotsAtEnd(ws[k])
    ensures DotsLastOrSpaced(Join(ws, " "))
    decreases |ws|
  {
    if |ws| > 1 {
      JoinDots(ws[1..]);
      var w, rest := ws[0], Join(ws[1..], " ");
      var j := Join(ws, " ");
      assert j == w + " " + rest;
      assert j[|w|] == ' ';
      forall i | 0 <= i < |j| && j[i] == '.'
        ensures i == |j| - 1 || j[i + 1] == ' '
      {
        if i < |w| {
          assert w[i] == '.';
          assert DotsAtEnd(ws[0]);
          assert i == |w| - 1;
          assert j[i + 1] == ' ';
        } else if i > |w| {
          var q := i - |w| - 1;
          assert j[i] == rest[q];
          assert q == |rest| - 1 || rest[q + 1] == ' ';
          if q < |rest| - 1 {
            assert j[i + 1] == rest[q + 1];
          }
        }
      }
    }
  }

  lemma SingleSpaceAfterDots(j: string)
    requires Collapsed(j) && DotsLastOrSpaced(j)
    ensures DotsSingleSpaced(j)
  {
    forall i | 0 <= i < |j| && j[i] == '.' && i != |j| - 1
      ensures j[i + 1] == ' ' && i + 2 < |j| && !IsSpace(j[i + 2])
    {
      assert IsSpace(j[i + 1]);
    }
  }

  lemma DottedWord(w: string)
    requires IsWord(w) && DotsAtEnd(w)
    ensures Fields(Dotted(w)) == [w]
  {
    FieldsOfWord(w);
    if w[|w| - 1] == '.' {
      var p := w[..|w| - 1];
      assert w == p + ".";
      assert '.' !in p by {
        forall i | 0 <= i < |p|
          ensures p[i] != '.'
        {
          assert p[i] == w[i];
        }
      }
      ReplaceAbsent(p, '.', ". ");
      ReplaceConcat(p, ".", '.', ". ");
      assert Dotted(w) == w + [' '] + [];
      FieldsSplit(w, ' ', []);
    } else {
      assert '.' !in w by {
        forall i | 0 <= i < |w|
          ensures w[i] != '.'
        {
        }
      }
      ReplaceAbsent(w, '.', ". ");
    }
  }

  lemma {:induction false} DottedJoin(ws: seq<string>)
    requires AllWords(ws) && forall k :: 0 <= k < |ws| ==> DotsAtEnd(ws[k])
    ensures Fields(Dotted(Join(ws, " "))) == ws
    decreases |ws|
  {
    if ws == [] {
    } else if |ws| == 1 {
      DottedWord(ws[0]);
    } else {
      var w, rest := ws[0], Join(ws[1..], " ");
      DottedWord(w);
      DottedJoin(ws[1..]);
      ReplaceConcat(w, " " + rest, '.', ". ");
      ReplaceConcat(" ", rest, '.', ". ");
      assert w + " " + rest == w + (" " + rest);
      assert Dotted(Join(ws, " ")) == Dotted(w) + [' '] + Dotted(rest);
      FieldsSplit(Dotted(w), ' ', Dotted(rest));
    }
  }

  /** `formatName` output is `Formatted`. */
  lemma FormatNameFormatted(s: string)
    ensures Formatted(FormatName(s))
  {
    var r := FormatName(s);
    forall i | 0 <= i < |r| && r[i] == '.'
      ensures i == |r| - 1 || r[i + 1] == ' '
    {
      assert DotsSingleSpaced(r);
    }
  }

  /** `formatName` is idempotent. */
  lemma FormatNameIdempotent(s: string)
    ensures FormatName(FormatName(s)) == FormatName(s)
  {
    var ws := Fields(Dotted(s));
    JoinCollapsed(ws);
    TrimCollapsed(Join(ws, " "));
    DottedSpaced(s);
    WordsDotsAtEnd(Dotted(s));
    DottedJoin(ws);
  }

  /** `formatTime` over every input: with the hyphens read as spaces, two or
      more fields give the first two on two lines, and the fields of the
      result are exactly those two (later fields are dropped); fewer fields
      give the hyphen-free text unchanged. */
  lemma FormatTimeFields(s: string)
    ensures var t := ReplaceChar(s, '-', " ");
            var parts := Fields(t);
            && (|parts| >= 2 ==> FormatTime(s) == parts[0] + "\n" + parts[1] && Fields(FormatTime(s)) == parts[..2])
            && (|parts| < 2 ==> FormatTime(s) == t)
  {
    var parts := Fields(ReplaceChar(s, '-', " "));
    if |parts| >= 2 {
      var a, b := parts[0], parts[1];
      assert a + "\n" + b == a + ['\n'] + b;
      FieldsSplit(a, '\n', b);
      FieldsOfWord(a);
      FieldsOfWord(b);
      assert parts[..2] == [a, b];
    }
  }

  /** A time range "start-end" becomes the two times on two lines. */
  lemma FormatTimeRange(a: string, b: string)
    requires IsWord(a) && IsWord(b) && '-' !in a && '-' !in b
    ensures FormatTime(a + "-" + b) == a + "\n" + b
  {
    ReplaceConcat(a, "-" + b, '-', " ");
    ReplaceConcat("-", b, '-', " ");
    ReplaceAbsent(a, '-', " ");
    ReplaceAbsent(b, '-', " ");
    assert a + "-" + b == a + ("-" + b);
    assert ReplaceChar(a + "-" + b, '-', " ") == a + [' '] + b;
    FieldsSplit(a, ' ', b);
    FieldsOfWord(a);
    FieldsOfWord(b);
  }

  /** The two prefixing cases of the rule: a site path gets the host, any
      other relative reference gets host and group path. */
  lemma RequestUrlPrefixed(value: string)
    ensures !HasPrefix(value, "http") && HasPrefix(value, GroupPath) ==> RequestUrl(value) == BaseUrl + value
    ensures !HasPrefix(value, "http") && !HasPrefix(value, GroupPath) ==> RequestUrl(value) == BaseUrl + GroupPath + value
  {
  }

  /** Normalising an already normalised reference changes nothing. */
  lemma RequestUrlIdempotent(value: string)
    ensures RequestUrl(RequestUrl(value)) == RequestUrl(value)
  {
  }

  /** Collapsing after the non-breaking-space rewrite: text without white
      space runs comes back unchanged. */
  lemma CleanTextFixed(t: string)
    requires Collapsed(t)
    ensures CleanText(t) == t
  {
    assert Nbsp !in t by {
      forall i | 0 <= i < |t|
        ensures t[i] != Nbsp
      {
        if t[i] == Nbsp {
          assert IsSpace(t[i]);
        }
      }
    }
    ReplaceAbsent(t, Nbsp, " ");
    CollapseFixed(t);
    TrimCollapsed(t);
  }
}
