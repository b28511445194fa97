/**
  The teacher-name extraction of `GetOptions` in schedule/teacher/teacher.go:
  every leftmost non-overlapping match of
  `[А-Я][а-яё]+\s+[А-Я]\.\s*[А-Я]\.` in a teacher text, each normalised to
  "Surname X. Y.". No character class of the pattern overlaps the one that
  follows it, so a match at a given start is unique and is found here by
  reading maximal runs.
*/
module TeacherNames {
  import opened Text
  import opened GroupFormat
  import opened FindAll

  /** `[А-Я]`: U+0410..U+042F, so Ё is not included. */
  predicate IsUpper(c: char) {
    'А' <= c <= 'Я'
  }

  /** `[а-яё]`: U+0430..U+044F and U+0451. */
  predicate IsLower(c: char) {
    ('а' <= c <= 'я') || c == 'ё'
  }

  /** Length of the run of lower-case letters starting at `p`. */
  function LowerRun(s: string, p: nat): (n: nat)
    requires p <= |s|
    ensures p + n <= |s|
    ensures forall i :: p <= i < p + n ==> IsLower(s[i])
    ensures p + n < |s| ==> !IsLower(s[p + n])
    decreases |s| - p
  {
    if p < |s| && IsLower(s[p]) then 1 + LowerRun(s, p + 1) else 0
  }

  lemma {:induction false} LowerRunExact(s: string, p: nat, n: nat)
    requires p + n <= |s|
    requires forall i :: p <= i < p + n ==> IsLower(s[i])
    requires p + n < |s| ==> !IsLower(s[p + n])
    ensures LowerRun(s, p) == n
    decreases n
  {
    if n > 0 {
      LowerRunExact(s, p + 1, n - 1);
    }
  }

  predicate LowerSpan(s: string, i: nat, j: nat)
    requires i <= j <= |s|
  {
    forall k :: i <= k < j ==> IsLower(s[k])
  }

  predicate SpaceSpan(s: string, i: nat, j: nat)
    requires i <= j <= |s|
  {
    forall k :: i <= k < j ==> IsReSpace(s[k])
  }

  /** The pattern matches `s[p..p + 5 + a + b + c]`, with `a` lower-case
      letters after the capital, `b` spaces before the first initial and `c`
      spaces before the second. */
  predicate NameShape(s: string, p: nat, a: nat, b: nat, c: nat) {
    && a >= 1 && b >= 1
    && p + 5 + a + b + c <= |s|
    && IsUpper(s[p])
    && LowerSpan(s, p + 1, p + 1 + a)
    && SpaceSpan(s, p + 1 + a, p + 1 + a + b)
    && IsUpper(s[p + 1 + a + b]) && s[p + 2 + a + b] == '.'
    && SpaceSpan(s, p + 3 + a + b, p + 3 + a + b + c)
    && IsUpper(s[p + 3 + a + b + c]) && s[p + 4 + a + b + c] == '.'
  }

  /** The length of the match starting at `p`, or 0 when none starts there. */
  function MatchLen(s: string, p: nat): (n: nat)
    requires p <= |s|
    ensures p + n <= |s|
  {
    if p < |s| && IsUpper(s[p]) then
      var a := LowerRun(s, p + 1);
      var q := p + 1 + a;
      var b := ReSpaceRun(s, q);
      var r := q + b;
      if a >= 1 && b >= 1 && r + 2 <= |s| && IsUpper(s[r]) && s[r + 1] == '.' then
        var c := ReSpaceRun(s, r + 2);
        var u := r + 2 + c;
        if u + 2 <= |s| && IsUpper(s[u]) && s[u + 1] == '.' then 5 + a + b + c else 0
      else 0
    else 0
  }

  /** A non-zero length is that of a match at `p`. */
  lemma MatchLenSound(s: string, p: nat)
    requires p <= |s| && MatchLen(s, p) > 0
    ensures exists a: nat, b: nat, c: nat :: NameShape(s, p, a, b, c) && MatchLen(s, p) == 5 + a + b + c
  {
    var a := LowerRun(s, p + 1);
    var b := ReSpaceRun(s, p + 1 + a);
    var c := ReSpaceRun(s, p + 3 + a + b);
    assert NameShape(s, p, a, b, c);
  }

  /** A match at `p` is the one `MatchLen` finds. */
  lemma MatchLenComplete(s: string, p: nat, a: nat, b: nat, c: nat)
    requires NameShape(s, p, a, b, c)
    ensures MatchLen(s, p) == 5 + a + b + c
  {
    assert !IsLower(s[p + 1 + a]);
    LowerRunExact(s, p + 1, a);
    assert !IsReSpace(s[p + 1 + a + b]);
    ReSpaceRunExact(s, p + 1 + a, b);
    assert !IsReSpace(s[p + 3 + a + b + c]);
    ReSpaceRunExact(s, p + 3 + a + b, c);
  }

  /** The match length at every position of `s`. */
  function Lens(s: string): (ls: seq<nat>)
    ensures |ls| == |s|
    ensures forall q :: 0 <= q < |s| ==> ls[q] == MatchLen(s, q)
    ensures Fits(ls)
  {
    seq(|s|, q requires 0 <= q < |s| => MatchLen(s, q))
  }

  /** The starts of the matches `re.FindAllString(s, -1)` returns. */
  function MatchStarts(s: string): (st: seq<nat>)
    ensures forall k :: 0 <= k < |st| ==> st[k] < |s| && MatchLen(s, st[k]) > 0
    ensures forall j, k :: 0 <= j < k < |st| ==> st[j] + MatchLen(s, st[j]) <= st[k]
  {
    var ls := Lens(s);
    StartsOrdered(ls, 0);
    Starts(ls, 0)
  }

  /** Every match of the pattern lies inside a reported one. */
  lemma MatchStartsCover(s: string, q: nat) returns (k: nat)
    requires q < |s| && MatchLen(s, q) > 0
    ensures k < |MatchStarts(s)| && MatchStarts(s)[k] <= q < MatchStarts(s)[k] + MatchLen(s, MatchStarts(s)[k])
  {
    k := StartsCover(Lens(s), 0, q);
  }

  /** `re.FindAllString(s, -1)` for the name pattern. */
  function FindNames(s: string): (ms: seq<string>)
    ensures |ms| == |MatchStarts(s)|
    ensures forall k :: 0 <= k < |ms| ==>
      ms[k] == s[MatchStarts(s)[k]..MatchStarts(s)[k] + MatchLen(s, MatchStarts(s)[k])]
  {
    var st := MatchStarts(s);
    seq(|st|, k requires 0 <= k < |st| => s[st[k]..st[k] + MatchLen(s, st[k])])
  }

  /** The clean-up applied to each match: trim, force ". " after periods,
      collapse white space. */
  function Normalize(m: string): string {
    Join(Fields(Dotted(TrimSpace(m))), " ")
  }

  predicate AllSpace(sp: string) {
    forall i :: 0 <= i < |sp| ==> IsSpace(sp[i])
  }

  /** The period replacement on a surname, a space run, an initial, a space
      run and an initial. */
  lemma DottedPieces(w: string, sp1: string, x: char, sp2: string, y: char)
    requires '.' !in w && '.' !in sp1 && '.' !in sp2 && x != '.' && y != '.'
    ensures Dotted(w + sp1 + [x, '.'] + sp2 + [y, '.']) == w + sp1 + [x, '.', ' '] + sp2 + [y, '.', ' ']
  {
    ReplaceAbsent(w, '.', ". ");
    ReplaceAbsent(sp1, '.', ". ");
    ReplaceAbsent(sp2, '.', ". ");
    assert ReplaceChar([x, '.'], '.', ". ") == [x, '.', ' '] by {
      assert ReplaceChar([x, '.'], '.', ". ") == ReplaceChar([x], '.', ". ") + ReplaceChar(['.'], '.', ". ") by {
        ReplaceConcat([x], ['.'], '.', ". ");
        assert [x] + ['.'] == [x, '.'];
      }
    }
    assert ReplaceChar([y, '.'], '.', ". ") == [y, '.', ' '] by {
      ReplaceConcat([y], ['.'], '.', ". ");
      assert [y] + ['.'] == [y, '.'];
    }
    ReplaceConcat(w + sp1 + [x, '.'] + sp2, [y, '.'], '.', ". ");
    ReplaceConcat(w + sp1 + [x, '.'], sp2, '.', ". ");
    ReplaceConcat(w + sp1, [x, '.'], '.', ". ");
    ReplaceConcat(w, sp1, '.', ". ");
  }

  /** The fields of the replaced text are the surname and the two initials. */
  lemma FieldsPieces(w: string, sp1: string, x: char, sp2: string, y: char)
    requires IsWord(w) && |sp1| > 0 && AllSpace(sp1) && AllSpace(sp2) && !IsSpace(x) && !IsSpace(y)
    ensures Fields(w + sp1 + [x, '.', ' '] + sp2 + [y, '.', ' ']) == [w, [x, '.'], [y, '.']]
  {
    var xd, yd := [x, '.'], [y, '.'];
    assert IsWord(xd) && IsWord(yd);
    assert w + sp1 + [x, '.', ' '] + sp2 + [y, '.', ' '] == w + sp1 + (xd + ([' '] + sp2) + (yd + [' ']));
    FieldsSplitRun(w, sp1, xd + ([' '] + sp2) + (yd + [' ']));
    FieldsSplitRun(xd, [' '] + sp2, yd + [' ']);
    assert yd + [' '] == yd + [' '] + [];
    FieldsSplit(yd, ' ', []);
    FieldsOfEmpty();
    FieldsOfWord(w);
    FieldsOfWord(xd);
    FieldsOfWord(yd);
  }

  /** A match normalises to the surname, a space and the initials as
      "X. Y.", whatever white space the page had. */
  lemma NormalizeShape(s: string, p: nat, a: nat, b: nat, c: nat, n: nat)
    requires NameShape(s, p, a, b, c) && n == 5 + a + b + c
    ensures Normalize(s[p..p + n]) == s[p..p + 1 + a] + " " + [s[p + 1 + a + b], '.', ' ', s[p + 3 + a + b + c], '.']
  {
    var m := s[p..p + n];
    var w, sp1, x, sp2, y := ShapePieces(s, p, a, b, c);
    DottedPieces(w, sp1, x, sp2, y);
    FieldsPieces(w, sp1, x, sp2, y);
    JoinThree(w, [x, '.'], [y, '.']);
    assert w + " " + [x, '.'] + " " + [y, '.'] == w + " " + [x, '.', ' ', y, '.'];
  }

  /** A match cut into its surname, the two runs of white space and the two
      initials, with what `Normalize` needs to know of each piece. */
  lemma ShapePieces(s: string, p: nat, a: nat, b: nat, c: nat) returns (w: string, sp1: string, x: char, sp2: string, y: char)
    requires NameShape(s, p, a, b, c)
    ensures var m := s[p..p + 5 + a + b + c];
            m == w + sp1 + [x, '.'] + sp2 + [y, '.'] && TrimSpace(m) == m
    ensures w == s[p..p + 1 + a] && x == s[p + 1 + a + b] && y == s[p + 3 + a + b + c]
    ensures IsWord(w) && '.' !in w
    ensures |sp1| > 0 && AllSpace(sp1) && '.' !in sp1
    ensures AllSpace(sp2) && '.' !in sp2
    ensures !IsSpace(x) && x != '.' && !IsSpace(y) && y != '.'
  {
    var m := s[p..p + 5 + a + b + c];
    w := m[..1 + a];
    sp1 := m[1 + a..1 + a + b];
    x := m[1 + a + b];
    sp2 := m[3 + a + b..3 + a + b + c];
    y := m[3 + a + b + c];
    assert m == w + sp1 + [x, '.'] + sp2 + [y, '.'];
    assert TrimLeft(m) == m;
    forall i | 0 <= i < |w|
      ensures !IsSpace(w[i]) && w[i] != '.'
    {
      assert w[i] == s[p + i];
      if i > 0 {
        assert IsLower(s[p + i]);
      }
    }
    forall i | 0 <= i < |sp1|
      ensures IsSpace(sp1[i]) && sp1[i] != '.'
    {
      assert IsReSpace(s[p + 1 + a + i]);
    }
    forall i | 0 <= i < |sp2|
      ensures IsSpace(sp2[i]) && sp2[i] != '.'
    {
      assert IsReSpace(s[p + 3 + a + b + i]);
    }
  }

  lemma JoinThree(u: string, v: string, w: string)
    ensures Join([u, v, w], " ") == u + " " + v + " " + w
  {
    var ws := [u, v, w];
    assert ws[1..] == [v, w] && ws[1..][1..] == [w];
    assert Join([w], " ") == w;
    assert Join([v, w], " ") == v + " " + w;
    assert Join(ws, " ") == u + " " + (v + " " + w);
  }

  /** The names taken from one `Teacher` text (none from the empty text). */
  function NamesOf(teacher: string): (names: set<string>)
    ensures teacher == "" ==> names == {}
  {
    if teacher == "" then {} else NamesIn(FindNames(teacher))
  }

  /** The non-empty normalised matches, as the set the loop over the
      matches fills. */
  function NamesIn(ms: seq<string>): set<string>
  {
    if ms == [] then {}
    else
      var name := Normalize(ms[|ms| - 1]);
      NamesIn(ms[..|ms| - 1]) + (if name != "" then {name} else {})
  }

  /** One more match adds its normalisation, when that is not empty. */
  lemma NamesInSnoc(ms: seq<string>, k: nat)
    requires k < |ms|
    ensures NamesIn(ms[..k + 1]) == NamesIn(ms[..k]) + (if Normalize(ms[k]) != "" then {Normalize(ms[k])} else {})
  {
    assert ms[..k + 1][..k] == ms[..k];
  }

  /** Each collected name is the normalisation of one of the matches. */
  lemma {:induction false} NamesInMember(ms: seq<string>, name: string) returns (k: nat)
    requires name in NamesIn(ms)
    ensures k < |ms| && Normalize(ms[k]) == name
    decreases |ms|
  {
    if Normalize(ms[|ms| - 1]) == name {
      k := |ms| - 1;
    } else {
      k := NamesInMember(ms[..|ms| - 1], name);
    }
  }

  /** Each non-empty normalised match is collected. */
  lemma {:induction false} NamesInHas(ms: seq<string>, k: nat)
    requires k < |ms| && Normalize(ms[k]) != ""
    ensures Normalize(ms[k]) in NamesIn(ms)
    decreases |ms|
  {
    if k < |ms| - 1 {
      NamesInHas(ms[..|ms| - 1], k);
    }
  }

  /** The `k`-th reported match, with its start and length. */
  lemma FoundMatch(teacher: string, k: nat) returns (p: nat, n: nat)
    requires k < |FindNames(teacher)|
    ensures p + n <= |teacher| && n == MatchLen(teacher, p) && n > 0
    ensures FindNames(teacher)[k] == teacher[p..p + n]
  {
    p := MatchStarts(teacher)[k];
    n := MatchLen(teacher, p);
  }

  /** A reported match and what it normalises to. */
  lemma MatchNormal(teacher: string, p: nat, n: nat) returns (a: nat, b: nat, c: nat)
    requires p + n <= |teacher| && n == MatchLen(teacher, p) && n > 0
    ensures NameShape(teacher, p, a, b, c)
    ensures Normalize(teacher[p..p + n]) ==
      teacher[p..p + 1 + a] + " " + [teacher[p + 1 + a + b], '.', ' ', teacher[p + 3 + a + b + c], '.']
  {
    MatchLenSound(teacher, p);
    a, b, c :| NameShape(teacher, p, a, b, c) && n == 5 + a + b + c;
    NormalizeShape(teacher, p, a, b, c, n);
  }

  /** Every extracted name is "Surname X. Y." for a match of the pattern
      somewhere in the text. */
  lemma NamesOfShape(teacher: string, name: string) returns (p: nat, a: nat, b: nat, c: nat)
    requires name in NamesOf(teacher)
    ensures NameShape(teacher, p, a, b, c)
    ensures name == teacher[p..p + 1 + a] + " " + [teacher[p + 1 + a + b], '.', ' ', teacher[p + 3 + a + b + c], '.']
  {
    var ms := FindNames(teacher);
    assert name in NamesIn(ms);
    var k := NamesInMember(ms, name);
    var n;
    p, n := FoundMatch(teacher, k);
    a, b, c := MatchNormal(teacher, p, n);
  }

  /** A text holding a match of the pattern yields at least one name. */
  lemma NamesOfNonEmpty(teacher: string, p: nat, a: nat, b: nat, c: nat)
    requires NameShape(teacher, p, a, b, c)
    ensures NamesOf(teacher) != {}
  {
    MatchLenComplete(teacher, p, a, b, c);
    var k := MatchStartsCover(teacher, p);
    var ms := FindNames(teacher);
    var q, n := FoundMatch(teacher, k);
    var a', b', c' := MatchNormal(teacher, q, n);
    NamesInHas(ms, k);
  }

  /** In `formatName` output a match already has the normal form: one
      space after the surname, none before the first initial, one after
      it. */
  lemma FormattedShape(t: string, p: nat, a: nat, b: nat, c: nat)
    requires Formatted(t) && NameShape(t, p, a, b, c)
    ensures b == 1 && c == 1
    ensures t[p..p + 5 + a + b + c] == t[p..p + 1 + a] + " " + [t[p + 1 + a + b], '.', ' ', t[p + 3 + a + b + c], '.']
  {
    ReSpaceIsSpace(t[p + 1 + a]);
    assert t[p + 3 + a + b] == ' ';
    var n := 5 + a + b + c;
    var found, normal := t[p..p + n], t[p..p + 1 + a] + " " + [t[p + 1 + a + b], '.', ' ', t[p + 3 + a + b + c], '.'];
    assert |found| == |normal|;
    forall k | 0 <= k < n
      ensures found[k] == normal[k]
    {
    }
  }

  /** A name extracted from `formatName` output occurs in it verbatim: used
      as a search fragment, it finds the text it came from. */
  lemma NameInFormatted(t: string, name: string)
    requires Formatted(t) && name in NamesOf(t)
    ensures Contains(t, name)
  {
    var p, a, b, c := NamesOfShape(t, name);
    NormalOccurs(t, name, p, a, b, c);
  }

  /** The normal form of a match in `formatName` output occurs at the match. */
  lemma NormalOccurs(t: string, name: string, p: nat, a: nat, b: nat, c: nat)
    requires Formatted(t) && NameShape(t, p, a, b, c)
    requires name == t[p..p + 1 + a] + " " + [t[p + 1 + a + b], '.', ' ', t[p + 3 + a + b + c], '.']
    ensures Contains(t, name)
  {
    FormattedShape(t, p, a, b, c);
    assert OccursAt(t, name, p);
  }
}
