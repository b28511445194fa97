/**
  The subset of Go's `strings` and `strconv` packages the parser uses, over
  `string` = `seq<char>` (one `char` per Unicode code point), with the lemmas
  the rest of the model needs about them.
*/
module Text {

  /** `unicode.IsSpace`: the white space that `strings.Fields` splits on and
      `strings.TrimSpace` removes. */
  predicate IsSpace(c: char) {
    c == '\t' || c == '\n' || c == '\U{000B}' || c == '\U{000C}' || c == '\r' || c == ' '
    || c == '\U{0085}' || c == '\U{00A0}' || c == '\U{1680}' || ('\U{2000}' <= c <= '\U{200A}')
    || c == '\U{2028}' || c == '\U{2029}' || c == '\U{202F}' || c == '\U{205F}' || c == '\U{3000}'
  }

  predicate SpaceFree(w: string) {
    forall i :: 0 <= i < |w| ==> !IsSpace(w[i])
  }

  /** What `strings.Fields` produces: non-empty runs without white space. */
  predicate IsWord(w: string) {
    |w| > 0 && SpaceFree(w)
  }

  predicate AllWords(ws: seq<string>) {
    forall k :: 0 <= k < |ws| ==> IsWord(ws[k])
  }

  /** No leading or trailing white space, no two white space characters in a
      row, and the only white space character is the plain space. */
  predicate Collapsed(t: string) {
    forall i {:trigger t[i]} :: 0 <= i < |t| && IsSpace(t[i]) ==> t[i] == ' ' && 0 < i < |t| - 1 && !IsSpace(t[i + 1])
  }

  /** Length of the longest white-space-free prefix of `s`. */
  function WordLen(s: string): (n: nat)
    ensures n <= |s|
    ensures forall i :: 0 <= i < n ==> !IsSpace(s[i])
    ensures n < |s| ==> IsSpace(s[n])
  {
    if s == [] || IsSpace(s[0]) then 0 else 1 + WordLen(s[1..])
  }

  /** `strings.Fields`: the maximal white-space-free runs of `s`, in order. */
  function Fields(s: string): (ws: seq<string>)
    ensures AllWords(ws)
    decreases |s|
  {
    if s == [] then []
    else if IsSpace(s[0]) then Fields(s[1..])
    else
      var n := WordLen(s);
      [s[..n]] + Fields(s[n..])
  }

  /** `strings.Join`. */
  function Join(ws: seq<string>, sep: string): string {
    if ws == [] then ""
    else if |ws| == 1 then ws[0]
    else ws[0] + sep + Join(ws[1..], sep)
  }

  /** `strings.Join(strings.Fields(s), " ")`, the white-space collapse the
      parser applies to every text it extracts. */
  function Collapse(s: string): string {
    Join(Fields(s), " ")
  }

  function TrimLeft(s: string): string {
    if s != [] && IsSpace(s[0]) then TrimLeft(s[1..]) else s
  }

  function TrimRight(s: string): string {
    if s != [] && IsSpace(s[|s| - 1]) then TrimRight(s[..|s| - 1]) else s
  }

  /** `strings.TrimSpace`. */
  function TrimSpace(s: string): string {
    TrimRight(TrimLeft(s))
  }

  /** `strings.ReplaceAll(s, string(c), r)` for a one-character pattern. */
  function ReplaceChar(s: string, c: char, r: string): string {
    if s == [] then [] else (if s[0] == c then r else [s[0]]) + ReplaceChar(s[1..], c, r)
  }

  predicate OccursAt(s: string, sub: string, i: nat) {
    i + |sub| <= |s| && s[i..i + |sub|] == sub
  }

  /** `strings.Contains`. */
  predicate Contains(s: string, sub: string) {
    exists i :: 0 <= i <= |s| && OccursAt(s, sub, i)
  }

  /** `strings.HasPrefix`. */
  predicate HasPrefix(s: string, p: string) {
    |p| <= |s| && s[..|p|] == p
  }

  function Digit(d: nat): char
    requires d < 10
  {
    "0123456789"[d]
  }

  /** `strconv.Itoa` on a non-negative number. */
  function Itoa(n: nat): string
    decreases n
  {
    if n < 10 then [Digit(n)] else Itoa(n / 10) + [Digit(n % 10)]
  }

  /** Reads back a string of decimal digits (the inverse of `Itoa`). */
  function Atoi(s: string): nat {
    if s == [] then 0
    else
      var c := s[|s| - 1];
      var d := if '0' <= c <= '9' then (c as int - '0' as int) as nat else 0;
      10 * Atoi(s[..|s| - 1]) + d
  }

  // ---------------------------------------------------------------------
  // Character classes of Go's regular expressions (RE2 syntax)

  /** `\s`: RE2's white space is ASCII tab, newline, form feed, carriage return
      and space (not vertical tab, and nothing beyond ASCII). */
  predicate IsReSpace(c: char) {
    c == '\t' || c == '\n' || c == '\U{000C}' || c == '\r' || c == ' '
  }

  /** `\d`: ASCII digits only. */
  predicate IsDigit(c: char) {
    '0' <= c <= '9'
  }

  /** RE2 white space is white space for `strings.Fields` too. */
  lemma ReSpaceIsSpace(c: char)
    requires IsReSpace(c)
    ensures IsSpace(c)
  {
  }

  /** Length of the run of RE2 white space starting at `p`; since no pattern
      this parser uses lets `\s` be followed by white space, the greedy `\s*`
      and `\s+` always take the whole run. */
  function ReSpaceRun(s: string, p: nat): (n: nat)
    requires p <= |s|
    ensures p + n <= |s|
    ensures forall i :: p <= i < p + n ==> IsReSpace(s[i])
    ensures p + n < |s| ==> !IsReSpace(s[p + n])
    decreases |s| - p
  {
    if p < |s| && IsReSpace(s[p]) then 1 + ReSpaceRun(s, p + 1) else 0
  }

  /** A run is determined by where it stops. */
  lemma ReSpaceRunExact(s: string, p: nat, n: nat)
    requires p + n <= |s|
    requires forall i :: p <= i < p + n ==> IsReSpace(s[i])
    requires p + n < |s| ==> !IsReSpace(s[p + n])
    ensures ReSpaceRun(s, p) == n
  {
  }

  // ---------------------------------------------------------------------
  // Lemmas about Fields, Join and TrimSpace

  lemma {:induction false} WordLenBeforeSpace(a: string, t: string)
    requires t != [] && IsSpace(t[0])
    ensures WordLen(a + t) == WordLen(a)
    decreases |a|
  {
    if a == [] {
      assert a + t == t;
    } else if !IsSpace(a[0]) {
      assert (a + t)[1..] == a[1..] + t;
      WordLenBeforeSpace(a[1..], t);
    }
  }

  /** Splitting at a white space character splits the fields. */
  lemma {:induction false} FieldsSplit(a: string, c: char, b: string)
    requires IsSpace(c)
    ensures Fields(a + [c] + b) == Fields(a) + Fields(b)
    decreases |a|
  {
    var s := a + [c] + b;
    if a == [] {
      assert s == [c] + b;
      assert s[1..] == b;
    } else if IsSpace(a[0]) {
      assert s[1..] == a[1..] + [c] + b;
      FieldsSplit(a[1..], c, b);
    } else {
      assert s == a + ([c] + b);
      WordLenBeforeSpace(a, [c] + b);
      var n := WordLen(a);
      assert s[..n] == a[..n];
      assert s[n..] == a[n..] + [c] + b;
      FieldsSplit(a[n..], c, b);
    }
  }

  /** A leading run of white space contributes no field. */
  lemma {:induction false} FieldsSkipSpaces(sp: string, b: string)
    requires forall i :: 0 <= i < |sp| ==> IsSpace(sp[i])
    ensures Fields(sp + b) == Fields(b)
    decreases |sp|
  {
    if sp != [] {
      assert (sp + b)[1..] == sp[1..] + b;
      FieldsSkipSpaces(sp[1..], b);
    } else {
      assert sp + b == b;
    }
  }

  /** Splitting at a non-empty run of white space splits the fields. */
  lemma FieldsSplitRun(a: string, sp: string, b: string)
    requires |sp| > 0 && forall i :: 0 <= i < |sp| ==> IsSpace(sp[i])
    ensures Fields(a + sp + b) == Fields(a) + Fields(b)
  {
    assert a + sp + b == a + [sp[0]] + (sp[1..] + b);
    FieldsSplit(a, sp[0], sp[1..] + b);
    FieldsSkipSpaces(sp[1..], b);
  }

  lemma FieldsOfWord(w: string)
    requires IsWord(w)
    ensures Fields(w) == [w]
  {
    assert WordLen(w) == |w|;
    assert w[..|w|] == w;
    assert w[|w|..] == [];
  }

  lemma FieldsOfEmpty()
    ensures Fields("") == []
  {
  }

  /** Joining words with single spaces and splitting again gives the words back. */
  lemma {:induction false} FieldsOfJoin(ws: seq<string>)
    requires AllWords(ws)
    ensures Fields(Join(ws, " ")) == ws
    decreases |ws|
  {
    if ws == [] {
    } else if |ws| == 1 {
      FieldsOfWord(ws[0]);
    } else {
      FieldsOfWord(ws[0]);
      FieldsOfJoin(ws[1..]);
      FieldsSplit(ws[0], ' ', Join(ws[1..], " "));
    }
  }

  lemma {:induction false} JoinEnds(ws: seq<string>)
    requires AllWords(ws) && ws != []
    ensures var j := Join(ws, " "); |j| > 0 && !IsSpace(j[0]) && !IsSpace(j[|j| - 1])
    decreases |ws|
  {
    if |ws| > 1 {
      JoinEnds(ws[1..]);
    }
  }

  /** Joining words with single spaces gives collapsed text. */
  lemma {:induction false} JoinCollapsed(ws: seq<string>)
    requires AllWords(ws)
    ensures Collapsed(Join(ws, " "))
    decreases |ws|
  {
    if |ws| > 1 {
      JoinCollapsed(ws[1..]);
      JoinEnds(ws[1..]);
      var w, rest := ws[0], Join(ws[1..], " ");
      var j := Join(ws, " ");
      assert j == w + " " + rest;
      forall i | 0 <= i < |j| && IsSpace(j[i])
        ensures j[i] == ' ' && 0 < i < |j| - 1 && !IsSpace(j[i + 1])
      {
        if i == |w| {
          assert j[i + 1] == rest[0];
        } else if i > |w| {
          assert j[i] == rest[i - |w| - 1];
          assert i + 1 < |j| ==> j[i + 1] == rest[i - |w|];
        }
      }
    }
  }

  lemma CollapseCollapsed(s: string)
    ensures Collapsed(Collapse(s))
  {
    JoinCollapsed(Fields(s));
  }

  /** Trimming collapsed text changes nothing. */
  lemma TrimCollapsed(t: string)
    requires Collapsed(t)
    ensures TrimSpace(t) == t
  {
    assert TrimLeft(t) == t;
  }

  /** What follows a white space character of collapsed text is collapsed. */
  lemma CollapsedAfterSpace(t: string, n: nat)
    requires Collapsed(t) && n < |t| && IsSpace(t[n])
    ensures Collapsed(t[n + 1..]) && t[n] == ' ' && n + 1 < |t| && !IsSpace(t[n + 1])
  {
    var rest := t[n + 1..];
    forall i | 0 <= i < |rest| && IsSpace(rest[i])
      ensures rest[i] == ' ' && 0 < i < |rest| - 1 && !IsSpace(rest[i + 1])
    {
      assert rest[i] == t[n + 1 + i];
    }
  }

  /** A leading word is the first field. */
  lemma FieldsHead(s: string)
    requires s != [] && !IsSpace(s[0])
    ensures Fields(s) == [s[..WordLen(s)]] + Fields(s[WordLen(s)..])
  {
  }

  /** A leading white space character contributes no field. */
  lemma FieldsSkipOne(s: string)
    requires s != [] && IsSpace(s[0])
    ensures Fields(s) == Fields(s[1..])
  {
  }

  /** Text made of a word, one space and more text that starts with a word
      splits into that word and the fields of the rest. */
  lemma WordSpaceWord(t: string, n: nat)
    requires 0 < n + 1 < |t| && n == WordLen(t) && !IsSpace(t[0])
    requires t[n] == ' ' && !IsSpace(t[n + 1])
    ensures Fields(t) == [t[..n]] + Fields(t[n + 1..])
    ensures Fields(t[n + 1..]) != []
  {
    var rest := t[n + 1..];
    FieldsHead(t);
    assert t[n..][1..] == rest;
    FieldsSkipOne(t[n..]);
    FieldsHead(rest);
  }

  /** Collapsed text is its own collapse. */
  lemma {:induction false} CollapseFixed(t: string)
    requires Collapsed(t)
    ensures Collapse(t) == t
    decreases |t|
  {
    if t != [] {
      var n := WordLen(t);
      if n == |t| {
        FieldsOfWord(t);
      } else {
        var rest := t[n + 1..];
        CollapsedAfterSpace(t, n);
        assert !IsSpace(t[0]);
        WordSpaceWord(t, n);
        CollapseFixed(rest);
        var ws := Fields(rest);
        assert ([t[..n]] + ws)[1..] == ws;
        assert t == t[..n] + " " + rest;
      }
    }
  }

  /** The characters of every field are characters of the text. */
  lemma {:induction false} FieldsChars(s: string)
    ensures forall w, x :: w in Fields(s) && x in w ==> x in s
    decreases |s|
  {
    if s != [] {
      if IsSpace(s[0]) {
        FieldsChars(s[1..]);
        assert forall x :: x in s[1..] ==> x in s;
      } else {
        var n := WordLen(s);
        FieldsChars(s[n..]);
        assert forall x :: x in s[n..] ==> x in s;
        assert forall x :: x in s[..n] ==> x in s;
      }
    }
  }

  // ---------------------------------------------------------------------
  // Lemmas about ReplaceChar

  lemma {:induction false} ReplaceConcat(a: string, b: string, c: char, r: string)
    ensures ReplaceChar(a + b, c, r) == ReplaceChar(a, c, r) + ReplaceChar(b, c, r)
    decreases |a|
  {
    if a == [] {
      assert a + b == b;
    } else {
      assert (a + b)[1..] == a[1..] + b;
      ReplaceConcat(a[1..], b, c, r);
    }
  }

  lemma {:induction false} ReplaceAbsent(s: string, c: char, r: string)
    requires c !in s
    ensures ReplaceChar(s, c, r) == s
    decreases |s|
  {
    if s != [] {
      assert c !in s[1..];
      ReplaceAbsent(s[1..], c, r);
    }
  }

  lemma {:induction false} ReplaceEmpty(s: string, c: char, r: string)
    requires r != []
    ensures ReplaceChar(s, c, r) == [] <==> s == []
    decreases |s|
  {
  }

  /** Replacing every `c` by a text without `c` leaves no `c`. */
  lemma {:induction false} ReplaceRemoves(s: string, c: char, r: string)
    requires c !in r
    ensures c !in ReplaceChar(s, c, r)
    decreases |s|
  {
    if s != [] {
      ReplaceRemoves(s[1..], c, r);
    }
  }

  // ---------------------------------------------------------------------
  // Lemmas about Itoa

  lemma {:induction false} AtoiItoa(n: nat)
    ensures Atoi(Itoa(n)) == n
    decreases n
  {
    if n >= 10 {
      AtoiItoa(n / 10);
      var s := Itoa(n / 10) + [Digit(n % 10)];
      assert s[..|s| - 1] == Itoa(n / 10);
    }
  }

  /** Distinct numbers have distinct decimal forms. */
  lemma ItoaInjective(m: nat, n: nat)
    requires Itoa(m) == Itoa(n)
    ensures m == n
  {
    AtoiItoa(m);
    AtoiItoa(n);
  }
}
