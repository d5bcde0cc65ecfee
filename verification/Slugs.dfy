/** The slug normaliser shared by events and organizers (packages/shared/src/utils/slug.ts).

    A title goes in after Unicode NFKD decomposition; everything after that step is modelled.
    The pipeline is proved equal to a reference reading of it: join the maximal runs of
    letters and digits with single hyphens, then keep the longest prefix that is a slug and fits.
 */
module Slugs {

  const EVENT_SLUG_MAX_LENGTH: nat := 96
  const EVENT_SLUG_FALLBACK := "event"
  const MAX_SAFE_INTEGER: nat := 9007199254740991

  // ---------- Grammar ----------

  predicate IsWordChar(c: char) {
    'a' <= c <= 'z' || '0' <= c <= '9'
  }

  lemma WordCharsAre(c: char)
    ensures IsWordChar(c) <==> c in {'a', 'b', 'c', 'd', 'e', 'f', 'g', 'h', 'i', 'j', 'k', 'l', 'm', 'n', 'o', 'p', 'q', 'r', 's', 't',
                                     'u', 'v', 'w', 'x', 'y', 'z', '0', '1', '2', '3', '4', '5', '6', '7', '8', '9'}
  {
  }

  predicate IsSlugChar(c: char) {
    IsWordChar(c) || c == '-'
  }

  predicate IsWord(w: string) {
    w != "" && forall i :: 0 <= i < |w| ==> IsWordChar(w[i])
  }

  /** The slug pattern as a test on characters and neighbours. */
  predicate IsSlug(s: string) {
    && s != ""
    && (forall i :: 0 <= i < |s| ==> IsSlugChar(s[i]))
    && s[0] != '-' && s[|s| - 1] != '-'
    && NoDoubleHyphen(s)
  }

  predicate NoDoubleHyphen(s: string) {
    forall i, j :: 0 <= i < |s| && j == i + 1 < |s| ==> s[i] != '-' || s[j] != '-'
  }

  function Join(words: seq<string>): string {
    if words == [] then ""
    else if |words| == 1 then words[0]
    else words[0] + "-" + Join(words[1..])
  }

  lemma JoinCons(w: string, words: seq<string>)
    ensures Join([w] + words) == if words == [] then w else w + "-" + Join(words)
  {
    assert ([w] + words)[1..] == words;
  }

  ghost predicate AllWords(words: seq<string>) {
    forall i :: 0 <= i < |words| ==> IsWord(words[i])
  }

  // ---------- The pipeline ----------

  function FlatMap(f: char -> string, s: string): string {
    if s == "" then "" else f(s[0]) + FlatMap(f, s[1..])
  }

  /** Latin letters that NFKD leaves whole. */
  function ReplaceLatin(c: char): string {
    match c
    case '\U{00DF}' => "ss"
    case '\U{1E9E}' => "SS"
    case '\U{00C6}' => "AE"
    case '\U{00E6}' => "ae"
    case '\U{0152}' => "OE"
    case '\U{0153}' => "oe"
    case '\U{00D8}' => "O"
    case '\U{00F8}' => "o"
    case '\U{0110}' => "D"
    case '\U{0111}' => "d"
    case '\U{00D0}' => "D"
    case '\U{00F0}' => "d"
    case '\U{00DE}' => "Th"
    case '\U{00FE}' => "th"
    case '\U{0141}' => "L"
    case '\U{0142}' => "l"
    case _ => [c]
  }

  function DropCombiningMark(c: char): string {
    if '\U{0300}' <= c <= '\U{036F}' then "" else [c]
  }

  function LowerCase(c: char): string {
    if 'A' <= c <= 'Z' then [(c as int + 32) as char] else [c]
  }

  function DropApostrophe(c: char): string {
    if c in {'\'', '\U{2019}', '\U{2018}', '`', '\U{00B4}'} then "" else [c]
  }

  predicate IsWhitespace(c: char) {
    '\t' <= c <= '\r' || c == ' ' || c in {'\U{00A0}', '\U{1680}', '\U{2028}', '\U{2029}', '\U{202F}', '\U{205F}', '\U{3000}', '\U{FEFF}'}
    || '\U{2000}' <= c <= '\U{200A}'
  }

  predicate IsHyphen(c: char) {
    c == '-'
  }

  function TrimLeft(p: char -> bool, s: string): (r: string)
    ensures r != "" ==> !p(r[0])
  {
    if s != "" && p(s[0]) then TrimLeft(p, s[1..]) else s
  }

  function TrimRight(p: char -> bool, s: string): (r: string)
    ensures r <= s
    ensures r != "" ==> !p(r[|r| - 1])
  {
    if s != "" && p(s[|s| - 1]) then TrimRight(p, s[..|s| - 1]) else s
  }

  function Trim(p: char -> bool, s: string): string {
    TrimRight(p, TrimLeft(p, s))
  }

  function SkipUnsupported(s: string): (r: string)
    ensures |r| <= |s|
    ensures r != "" ==> IsWordChar(r[0])
  {
    if s != "" && !IsWordChar(s[0]) then SkipUnsupported(s[1..]) else s
  }

  /** Every maximal run of unsupported characters becomes one hyphen. */
  function Collapse(s: string): string
    decreases |s|
  {
    if s == "" then ""
    else if IsWordChar(s[0]) then [s[0]] + Collapse(s[1..])
    else "-" + Collapse(SkipUnsupported(s[1..]))
  }

  /** The character steps before separators are inserted. */
  function Fold(s: string): string {
    FlatMap(DropApostrophe, Trim(IsWhitespace, FlatMap(LowerCase, FlatMap(DropCombiningMark, FlatMap(ReplaceLatin, s)))))
  }

  function ToSlug(s: string): string {
    Trim(IsHyphen, Collapse(Fold(s)))
  }

  function Truncate(s: string, maxLength: nat): string {
    Trim(IsHyphen, if |s| <= maxLength then s else s[..maxLength])
  }

  datatype SlugError = BadMaxLength | BadSuffix | NoRoomForSuffix
  datatype SlugResult = Slug(slug: string) | Refused(error: SlugError)

  predicate ValidMaxLength(maxLength: int) {
    1 <= maxLength <= MAX_SAFE_INTEGER
  }

  function Normalize(input: string, fallback: string, maxLength: nat): string {
    var normalized := Truncate(ToSlug(input), maxLength);
    if |normalized| > 0 then normalized
    else
      var other := Truncate(ToSlug(fallback), maxLength);
      if |other| > 0 then other
      else if |EVENT_SLUG_FALLBACK| <= maxLength then EVENT_SLUG_FALLBACK else EVENT_SLUG_FALLBACK[..maxLength]
  }

  function DigitChar(d: nat): (c: char)
    requires d < 10
    ensures IsWordChar(c)
  {
    (d + '0' as int) as char
  }

  function Decimal(n: nat): (r: string) {
    if n < 10 then [DigitChar(n)] else Decimal(n / 10) + [DigitChar(n % 10)]
  }

  function SuffixText(suffix: nat): string {
    "-" + Decimal(suffix)
  }

  function AppendSuffix(slug: string, suffix: int, fallback: string, maxLength: int): SlugResult {
    if !(1 <= suffix <= MAX_SAFE_INTEGER) then Refused(BadSuffix)
    else if !ValidMaxLength(maxLength) then Refused(BadMaxLength)
    else if |SuffixText(suffix)| >= maxLength then Refused(NoRoomForSuffix)
    else Slug(Normalize(slug, fallback, maxLength - |SuffixText(suffix)|) + SuffixText(suffix))
  }

  // ---------- The pattern ----------

  lemma {:induction false} JoinIsSlug(words: seq<string>)
    requires AllWords(words) && words != []
    ensures IsSlug(Join(words))
  {
    if |words| > 1 {
      JoinIsSlug(words[1..]);
      var w, rest := words[0], Join(words[1..]);
      assert IsWord(w);
      var s := Join(words);
      assert s == w + "-" + rest;
      forall i, j | 0 <= i < |s| && j == i + 1 < |s| ensures s[i] != '-' || s[j] != '-' {
        if i < |w| { assert s[i] == w[i]; }
        else if i == |w| { assert s[j] == rest[0]; }
        else { assert s[i] == rest[i - |w| - 1] && s[j] == rest[i - |w|]; }
      }
      forall i | 0 <= i < |s| ensures IsSlugChar(s[i]) {
        if i < |w| { assert s[i] == w[i]; } else if i > |w| { assert s[i] == rest[i - |w| - 1]; }
      }
      assert s[|s| - 1] == rest[|rest| - 1];
    } else {
      assert IsWord(words[0]);
    }
  }

  function FirstHyphen(s: string): (n: nat)
    ensures n <= |s|
    ensures forall i :: 0 <= i < n ==> s[i] != '-'
    ensures n < |s| ==> s[n] == '-'
  {
    if s == "" || s[0] == '-' then 0 else 1 + FirstHyphen(s[1..])
  }

  lemma SlugAfterHyphen(s: string, k: nat)
    requires IsSlug(s) && k < |s| && s[k] == '-'
    ensures k + 1 < |s| && IsSlug(s[k + 1..])
  {
    var rest := s[k + 1..];
    assert s[k + 1] != '-';
    forall i | 0 <= i < |rest| ensures IsSlugChar(rest[i]) {
      assert rest[i] == s[k + 1 + i];
    }
    forall i, j | 0 <= i < |rest| && j == i + 1 < |rest| ensures rest[i] != '-' || rest[j] != '-' {
      assert rest[i] == s[k + 1 + i] && rest[j] == s[k + 1 + j];
    }
  }

  lemma SlugFirstWord(s: string)
    requires IsSlug(s)
    ensures IsWord(s[..FirstHyphen(s)])
  {
    var n := FirstHyphen(s);
    forall i | 0 <= i < n ensures IsWordChar(s[i]) {
      assert IsSlugChar(s[i]) && s[i] != '-';
    }
  }

  lemma HyphenSplits(s: string, n: nat)
    requires n < |s| && s[n] == '-'
    ensures s == s[..n] + "-" + s[n + 1..]
  {
    assert s == s[..n] + [s[n]] + s[n + 1..];
  }

  lemma WordsCons(w: string, words: seq<string>)
    requires IsWord(w) && AllWords(words)
    ensures AllWords([w] + words)
  {
  }

  /** The words of a slug, read off its hyphens. */
  lemma {:induction false} SlugIsJoin(s: string) returns (words: seq<string>)
    requires IsSlug(s)
    ensures words != [] && AllWords(words) && s == Join(words)
    decreases |s|
  {
    var n := FirstHyphen(s);
    SlugFirstWord(s);
    if n == |s| {
      assert s[..n] == s;
      words := [s];
    } else {
      SlugAfterHyphen(s, n);
      var more := SlugIsJoin(s[n + 1..]);
      words := [s[..n]] + more;
      WordsCons(s[..n], more);
      JoinCons(s[..n], more);
      HyphenSplits(s, n);
    }
  }

  /** `IsSlug` is exactly the pattern `[a-z0-9]+(-[a-z0-9]+)*`. */
  lemma SlugPattern(s: string)
    ensures IsSlug(s) <==> exists words: seq<string> :: words != [] && AllWords(words) && s == Join(words)
  {
    if IsSlug(s) {
      var words := SlugIsJoin(s);
    }
    if words: seq<string> :| words != [] && AllWords(words) && s == Join(words) {
      JoinIsSlug(words);
    }
  }

  // ---------- The pipeline computes the joined words ----------

  function RunLength(s: string): (n: nat)
    ensures n <= |s|
    ensures forall i :: 0 <= i < n ==> IsWordChar(s[i])
    ensures n < |s| ==> !IsWordChar(s[n])
    ensures s != "" && IsWordChar(s[0]) ==> n > 0
  {
    if s == "" || !IsWordChar(s[0]) then 0 else 1 + RunLength(s[1..])
  }

  /** Reference reading: the maximal runs of letters and digits, in order. */
  function Words(s: string): (r: seq<string>)
    ensures AllWords(r)
    decreases |s|
  {
    if s == "" then []
    else if !IsWordChar(s[0]) then Words(s[1..])
    else [s[..RunLength(s)]] + Words(s[RunLength(s)..])
  }

  lemma {:induction false} WordsSkip(s: string)
    ensures Words(SkipUnsupported(s)) == Words(s)
  {
    if s != "" && !IsWordChar(s[0]) {
      WordsSkip(s[1..]);
    }
  }

  lemma {:induction false} CollapseRun(s: string, n: nat)
    requires n <= RunLength(s)
    ensures Collapse(s) == s[..n] + Collapse(s[n..])
  {
    if n > 0 {
      CollapseRun(s[1..], n - 1);
      assert s[1..][n - 1..] == s[n..];
      assert [s[0]] + s[1..][..n - 1] == s[..n];
    } else {
      assert s[0..] == s;
    }
  }

  lemma {:induction false} TrimRightAppend(a: string, b: string)
    requires b != "" ==> b[0] != '-'
    requires a != "" && (b == "" ==> a[|a| - 1] != '-')
    ensures TrimRight(IsHyphen, a + b) == a + TrimRight(IsHyphen, b)
    decreases |b|
  {
    if b == "" {
      assert a + b == a;
    } else if b[|b| - 1] == '-' {
      assert |b| > 1;
      assert (a + b)[..|a + b| - 1] == a + b[..|b| - 1];
      TrimRightAppend(a, b[..|b| - 1]);
    }
  }

  /** Trimming after one leading run: the run, then a hyphen only if more words follow. */
  lemma TrimAfterRun(w: string, tail: string)
    requires IsWord(w)
    requires tail != "" ==> IsWordChar(tail[0])
    ensures Trim(IsHyphen, w + "-" + tail) == if tail == "" then w else w + "-" + Trim(IsHyphen, tail)
    ensures Trim(IsHyphen, "-" + tail) == Trim(IsHyphen, tail)
    ensures Trim(IsHyphen, w) == w
  {
    assert ("-" + tail)[1..] == tail;
    assert TrimLeft(IsHyphen, w + "-" + tail) == w + "-" + tail;
    if tail == "" {
      var v := w + "-" + tail;
      assert v == w + "-" && v[..|v| - 1] == w && v[|v| - 1] == '-';
      assert TrimRight(IsHyphen, v) == TrimRight(IsHyphen, w) == w;
    } else {
      assert TrimLeft(IsHyphen, tail) == tail;
      TrimRightAppend(w + "-", tail);
    }
  }

  lemma CollapseStart(s: string)
    ensures s != "" && IsWordChar(s[0]) ==> Collapse(s) != "" && Collapse(s)[0] == s[0]
    ensures s == "" ==> Collapse(s) == ""
  {
  }

  lemma {:induction false} PipelineJoinsWords(s: string)
    ensures Trim(IsHyphen, Collapse(s)) == Join(Words(s))
    decreases |s|
  {
    if s != "" && !IsWordChar(s[0]) {
      var rest := SkipUnsupported(s[1..]);
      PipelineJoinsWords(rest);
      WordsSkip(s[1..]);
      CollapseStart(rest);
      TrimAfterRun("a", Collapse(rest));
    } else if s != "" {
      PipelineJoinsRun(s, RunLength(s));
    }
  }

  lemma WordsRun(s: string)
    requires s != "" && IsWordChar(s[0])
    ensures Words(s) == [s[..RunLength(s)]] + Words(SkipUnsupported(s[RunLength(s)..]))
  {
    WordsSkip(s[RunLength(s)..]);
  }

  lemma CollapseGap(s: string)
    requires s != "" && !IsWordChar(s[0])
    ensures Collapse(s) == "-" + Collapse(SkipUnsupported(s))
  {
  }

  lemma CollapseAfterRun(s: string)
    requires s != "" && IsWordChar(s[0])
    ensures var w, rest := s[..RunLength(s)], s[RunLength(s)..];
      Collapse(s) == if rest == "" then w else w + "-" + Collapse(SkipUnsupported(rest))
  {
    var w, rest := s[..RunLength(s)], s[RunLength(s)..];
    CollapseRun(s, RunLength(s));
    if rest != "" {
      CollapseGap(rest);
      Associate(w, Collapse(SkipUnsupported(rest)));
    }
  }

  lemma Associate(w: string, tail: string)
    ensures w + ("-" + tail) == w + "-" + tail
  {
  }

  lemma WordsEmpty(s: string)
    ensures Words(SkipUnsupported(s)) == [] <==> SkipUnsupported(s) == ""
  {
  }

  lemma {:induction false} PipelineJoinsRun(s: string, n: nat)
    requires s != "" && IsWordChar(s[0]) && n == RunLength(s)
    ensures Trim(IsHyphen, Collapse(s)) == Join(Words(s))
    decreases |s|, 0
  {
    var next := SkipUnsupported(s[n..]);
    CollapseAfterRun(s);
    WordsRun(s);
    WordsEmpty(s[n..]);
    JoinCons(s[..n], Words(next));
    CollapseStart(next);
    TrimAfterRun(s[..n], Collapse(next));
    PipelineJoinsWords(next);
  }

  /** What the separator steps mean: the words of the folded title joined by single hyphens. */
  lemma ToSlugJoinsWords(s: string)
    ensures ToSlug(s) == Join(Words(Fold(s)))
    ensures ToSlug(s) == "" <==> Words(Fold(s)) == []
    ensures ToSlug(s) != "" ==> IsSlug(ToSlug(s))
  {
    PipelineJoinsWords(Fold(s));
    if Words(Fold(s)) != [] {
      JoinIsSlug(Words(Fold(s)));
    }
  }

  // ---------- Character by character ----------

  /** What one character of a title contributes. */
  function FoldChar(c: char): string {
    match c
    case '\U{00DF}' => "ss" case '\U{1E9E}' => "ss"
    case '\U{00C6}' => "ae" case '\U{00E6}' => "ae"
    case '\U{0152}' => "oe" case '\U{0153}' => "oe"
    case '\U{00D8}' => "o" case '\U{00F8}' => "o"
    case '\U{0110}' => "d" case '\U{0111}' => "d" case '\U{00D0}' => "d" case '\U{00F0}' => "d"
    case '\U{00DE}' => "th" case '\U{00FE}' => "th"
    case '\U{0141}' => "l" case '\U{0142}' => "l"
    case '\'' => "" case '\U{2019}' => "" case '\U{2018}' => "" case '`' => "" case '\U{00B4}' => ""
    case _ =>
      if 'A' <= c <= 'Z' then ["abcdefghijklmnopqrstuvwxyz"[c as int - 'A' as int]]
      else if '\U{0300}' <= c <= '\U{036F}' then ""
      else [c]
  }

  lemma {:induction false} FlatMapJoined(f: char -> string, a: string, b: string)
    ensures FlatMap(f, a + b) == FlatMap(f, a) + FlatMap(f, b)
  {
    if a == "" {
      assert a + b == b;
    } else {
      assert (a + b)[1..] == a[1..] + b;
      FlatMapJoined(f, a[1..], b);
    }
  }

  lemma FlatMapOne(f: char -> string, c: char)
    ensures FlatMap(f, [c]) == f(c)
  {
    assert FlatMap(f, "") == "";
  }

  lemma FlatMapTwo(f: char -> string, c: char, d: char)
    ensures FlatMap(f, [c, d]) == f(c) + f(d)
  {
    assert [c, d][1..] == [d];
    FlatMapOne(f, d);
  }

  function Lowered(s: string): string {
    FlatMap(LowerCase, FlatMap(DropCombiningMark, FlatMap(ReplaceLatin, s)))
  }

  predicate IsLetter(c: char) {
    'a' <= c <= 'z' || 'A' <= c <= 'Z'
  }

  function AfterLatin(s: string): string {
    FlatMap(DropApostrophe, FlatMap(LowerCase, FlatMap(DropCombiningMark, s)))
  }

  lemma LetterStays(c: char)
    requires IsLetter(c)
    ensures DropCombiningMark(c) == [c] && |LowerCase(c)| == 1 && DropApostrophe(LowerCase(c)[0]) == LowerCase(c)
  {
  }

  lemma AfterLatinPair(c: char, d: char)
    requires IsLetter(c) && IsLetter(d)
    ensures AfterLatin([c, d]) == LowerCase(c) + LowerCase(d)
  {
    LetterStays(c);
    LetterStays(d);
    FlatMapTwo(DropCombiningMark, c, d);
    FlatMapTwo(LowerCase, c, d);
    FlatMapTwo(DropApostrophe, LowerCase(c)[0], LowerCase(d)[0]);
    assert [c] + [d] == [c, d] && LowerCase(c) + LowerCase(d) == [LowerCase(c)[0], LowerCase(d)[0]];
  }

  lemma AfterLatinOne(c: char)
    ensures AfterLatin([c]) == if '\U{0300}' <= c <= '\U{036F}' then "" else DropApostrophe(LowerCase(c)[0])
  {
    FlatMapOne(DropCombiningMark, c);
    if DropCombiningMark(c) == [c] {
      FlatMapOne(LowerCase, c);
      assert LowerCase(c) == [LowerCase(c)[0]];
      FlatMapOne(DropApostrophe, LowerCase(c)[0]);
    }
  }

  lemma PairIsFolded(c: char)
    requires |ReplaceLatin(c)| == 2
    ensures var r := ReplaceLatin(c); IsLetter(r[0]) && IsLetter(r[1]) && LowerCase(r[0]) + LowerCase(r[1]) == FoldChar(c)
  {
  }

  lemma OneIsFolded(c: char)
    requires |ReplaceLatin(c)| != 2
    ensures |ReplaceLatin(c)| == 1
    ensures var d := ReplaceLatin(c)[0]; FoldChar(c) == if '\U{0300}' <= d <= '\U{036F}' then "" else DropApostrophe(LowerCase(d)[0])
  {
  }

  lemma LoweredChar(c: char)
    ensures FlatMap(DropApostrophe, Lowered([c])) == FoldChar(c)
  {
    FlatMapOne(ReplaceLatin, c);
    var r := ReplaceLatin(c);
    if |r| == 2 {
      PairIsFolded(c);
      assert r == [r[0], r[1]];
      AfterLatinPair(r[0], r[1]);
    } else {
      OneIsFolded(c);
      assert r == [r[0]];
      AfterLatinOne(r[0]);
    }
  }

  lemma LoweredJoined(a: string, b: string)
    ensures Lowered(a + b) == Lowered(a) + Lowered(b)
  {
    FlatMapJoined(ReplaceLatin, a, b);
    FlatMapJoined(DropCombiningMark, FlatMap(ReplaceLatin, a), FlatMap(ReplaceLatin, b));
    FlatMapJoined(LowerCase, FlatMap(DropCombiningMark, FlatMap(ReplaceLatin, a)), FlatMap(DropCombiningMark, FlatMap(ReplaceLatin, b)));
  }

  lemma {:induction false} StepsTogether(s: string)
    ensures FlatMap(DropApostrophe, Lowered(s)) == FlatMap(FoldChar, s)
  {
    if s != "" {
      LoweredJoined([s[0]], s[1..]);
      assert s == [s[0]] + s[1..];
      LoweredChar(s[0]);
      FlatMapJoined(DropApostrophe, Lowered([s[0]]), Lowered(s[1..]));
      StepsTogether(s[1..]);
    }
  }

  lemma {:induction false} WordsBeforeGap(s: string, c: char)
    requires !IsWordChar(c)
    ensures Words(s + [c]) == Words(s)
    decreases |s|
  {
    if s == "" {
      assert s + [c] == [c] && [c][1..] == "";
    } else if !IsWordChar(s[0]) {
      assert (s + [c])[1..] == s[1..] + [c];
      WordsBeforeGap(s[1..], c);
    } else {
      var n := RunLength(s);
      RunBeforeGap(s, c);
      assert (s + [c])[..n] == s[..n] && (s + [c])[n..] == s[n..] + [c];
      WordsBeforeGap(s[n..], c);
    }
  }

  lemma {:induction false} RunBeforeGap(s: string, c: char)
    requires !IsWordChar(c)
    ensures RunLength(s + [c]) == RunLength(s)
  {
    if s != "" {
      assert (s + [c])[1..] == s[1..] + [c];
      RunBeforeGap(s[1..], c);
    }
  }

  lemma WhitespaceIsGap(c: char)
    requires IsWhitespace(c)
    ensures !IsWordChar(c) && DropApostrophe(c) == [c]
  {
  }

  lemma {:induction false} TrimLeftKeepsWords(s: string)
    ensures Words(FlatMap(DropApostrophe, TrimLeft(IsWhitespace, s))) == Words(FlatMap(DropApostrophe, s))
  {
    if s != "" && IsWhitespace(s[0]) {
      WhitespaceIsGap(s[0]);
      var rest := FlatMap(DropApostrophe, s[1..]);
      assert ([s[0]] + rest)[1..] == rest;
      TrimLeftKeepsWords(s[1..]);
    }
  }

  lemma {:induction false} TrimRightKeepsWords(s: string)
    ensures Words(FlatMap(DropApostrophe, TrimRight(IsWhitespace, s))) == Words(FlatMap(DropApostrophe, s))
  {
    if s != "" && IsWhitespace(s[|s| - 1]) {
      var n := |s| - 1;
      WhitespaceIsGap(s[n]);
      assert s == s[..n] + [s[n]];
      FlatMapJoined(DropApostrophe, s[..n], [s[n]]);
      FlatMapOne(DropApostrophe, s[n]);
      WordsBeforeGap(FlatMap(DropApostrophe, s[..n]), s[n]);
      TrimRightKeepsWords(s[..n]);
    }
  }

  /** A slug is decided character by character: letters and digits stay, in lower case, sixteen Latin letters are spelled out,
      apostrophes and accents vanish, and every run of anything else separates two words. */
  lemma ToSlugByCharacter(s: string)
    ensures ToSlug(s) == Join(Words(FlatMap(FoldChar, s)))
  {
    ToSlugJoinsWords(s);
    TrimRightKeepsWords(TrimLeft(IsWhitespace, Lowered(s)));
    TrimLeftKeepsWords(Lowered(s));
    StepsTogether(s);
  }

  // ---------- Truncation ----------

  /** r is the longest prefix of s of at most n characters that is a slug. */
  ghost predicate LongestSlugPrefix(s: string, n: int, r: string) {
    IsSlug(r) && r <= s && |r| <= n && forall m :: |r| < m <= |s| && m <= n ==> !IsSlug(s[..m])
  }

  /** Truncating a slug keeps the longest slug prefix that fits. */
  lemma TruncateLongestPrefix(s: string, n: nat)
    requires IsSlug(s) && n >= 1
    ensures LongestSlugPrefix(s, n, Truncate(s, n))
  {
    var cut := if |s| <= n then s else s[..n];
    assert cut[0] == s[0];
    if cut[|cut| - 1] == '-' {
      assert |cut| >= 2 && cut[|cut| - 2] != '-';
      assert TrimRight(IsHyphen, cut) == TrimRight(IsHyphen, cut[..|cut| - 1]) == cut[..|cut| - 1];
      assert s[..|cut|] == cut;
    } else {
      assert TrimRight(IsHyphen, cut) == cut;
    }
  }

  lemma FallbackFits(n: nat)
    requires n >= 1
    ensures IsSlug(EVENT_SLUG_FALLBACK) && (n < 5 ==> IsSlug(EVENT_SLUG_FALLBACK[..n]))
  {
  }

  /** Every accepted call yields a slug of at most maxLength characters, whatever the title and fallback. */
  lemma NormalizeIsSlug(input: string, fallback: string, maxLength: nat)
    requires maxLength >= 1
    ensures IsSlug(Normalize(input, fallback, maxLength))
    ensures 1 <= |Normalize(input, fallback, maxLength)| <= maxLength
    ensures Words(Fold(input)) != [] ==> Normalize(input, fallback, maxLength) <= Join(Words(Fold(input)))
  {
    ToSlugJoinsWords(input);
    ToSlugJoinsWords(fallback);
    FallbackFits(maxLength);
    if ToSlug(input) != "" { TruncateLongestPrefix(ToSlug(input), maxLength); }
    if ToSlug(fallback) != "" { TruncateLongestPrefix(ToSlug(fallback), maxLength); }
  }

  /** The words the slug is made of: the title's, or the fallback's when it has none, or the word "event". */
  function Source(input: string, fallback: string): string {
    var own, other := Join(Words(FlatMap(FoldChar, input))), Join(Words(FlatMap(FoldChar, fallback)));
    if own != "" then own else if other != "" then other else "event"
  }

  /** The result in full: the longest slug that fits of those words. */
  lemma NormalizeIsLongest(input: string, fallback: string, maxLength: nat)
    requires maxLength >= 1
    ensures LongestSlugPrefix(Source(input, fallback), maxLength, Normalize(input, fallback, maxLength))
  {
    ToSlugByCharacter(input);
    ToSlugByCharacter(fallback);
    ToSlugJoinsWords(input);
    ToSlugJoinsWords(fallback);
    FallbackFits(maxLength);
    if ToSlug(input) != "" {
      TruncateLongestPrefix(ToSlug(input), maxLength);
    } else if ToSlug(fallback) != "" {
      assert Truncate("", maxLength) == "";
      TruncateLongestPrefix(ToSlug(fallback), maxLength);
    }
  }

  // ---------- Identity on slugs that fit, hence idempotence ----------

  lemma {:induction false} FlatMapIdentity(f: char -> string, s: string)
    requires forall i :: 0 <= i < |s| ==> f(s[i]) == [s[i]]
    ensures FlatMap(f, s) == s
  {
    if s != "" {
      forall i | 0 <= i < |s[1..]| ensures f(s[1..][i]) == [s[1..][i]] {
        assert s[1..][i] == s[i + 1];
      }
      FlatMapIdentity(f, s[1..]);
    }
  }

  lemma SlugCharFixed(c: char)
    requires IsSlugChar(c)
    ensures ReplaceLatin(c) == [c] && DropCombiningMark(c) == [c] && LowerCase(c) == [c] && DropApostrophe(c) == [c]
    ensures !IsWhitespace(c)
  {
  }

  lemma FoldIdentity(s: string)
    requires IsSlug(s)
    ensures Fold(s) == s
  {
    forall i | 0 <= i < |s| ensures ReplaceLatin(s[i]) == [s[i]] { SlugCharFixed(s[i]); }
    FlatMapIdentity(ReplaceLatin, s);
    forall i | 0 <= i < |s| ensures DropCombiningMark(s[i]) == [s[i]] { SlugCharFixed(s[i]); }
    FlatMapIdentity(DropCombiningMark, s);
    forall i | 0 <= i < |s| ensures LowerCase(s[i]) == [s[i]] { SlugCharFixed(s[i]); }
    FlatMapIdentity(LowerCase, s);
    SlugCharFixed(s[0]);
    SlugCharFixed(s[|s| - 1]);
    assert Trim(IsWhitespace, s) == s;
    forall i | 0 <= i < |s| ensures DropApostrophe(s[i]) == [s[i]] { SlugCharFixed(s[i]); }
    FlatMapIdentity(DropApostrophe, s);
  }

  lemma {:induction false} CollapseIdentity(s: string)
    requires forall i :: 0 <= i < |s| ==> IsSlugChar(s[i])
    requires NoDoubleHyphen(s)
    ensures Collapse(s) == s
  {
    if s != "" {
      CollapseIdentity(s[1..]);
      if s[0] == '-' && |s| > 1 {
        assert s[1..][0] == s[1] && IsSlugChar(s[1]);
        assert SkipUnsupported(s[1..]) == s[1..];
      }
    }
  }

  lemma ToSlugIdentity(s: string)
    requires IsSlug(s)
    ensures ToSlug(s) == s
  {
    FoldIdentity(s);
    CollapseIdentity(s);
    assert Trim(IsHyphen, s) == s;
  }

  /** A slug that fits is left alone, so normalising twice is normalising once. */
  lemma NormalizeIdentity(s: string, fallback: string, maxLength: nat)
    requires IsSlug(s) && |s| <= maxLength
    ensures Normalize(s, fallback, maxLength) == s
  {
    ToSlugIdentity(s);
    assert Trim(IsHyphen, s) == s;
  }

  lemma NormalizeIdempotent(input: string, fallback: string, fallback': string, maxLength: nat, maxLength': nat)
    requires 1 <= maxLength <= maxLength'
    ensures Normalize(Normalize(input, fallback, maxLength), fallback', maxLength') == Normalize(input, fallback, maxLength)
  {
    NormalizeIsSlug(input, fallback, maxLength);
    NormalizeIdentity(Normalize(input, fallback, maxLength), fallback', maxLength');
  }

  lemma SlugIsItsWords(s: string, fallback: string)
    requires IsSlug(s)
    ensures Source(s, fallback) == s
  {
    ToSlugIdentity(s);
    ToSlugByCharacter(s);
  }

  // ---------- Suffixes ----------

  lemma {:induction false} DecimalIsWord(n: nat)
    ensures IsWord(Decimal(n))
  {
    if n >= 10 { DecimalIsWord(n / 10); }
  }

  lemma {:induction false} DecimalInjective(m: nat, n: nat)
    requires Decimal(m) == Decimal(n)
    ensures m == n
  {
    if m >= 10 || n >= 10 {
      var s := Decimal(m);
      assert s[|s| - 1] == DigitChar(m % 10) == DigitChar(n % 10);
      DecimalIsWord(m / 10);
      DecimalIsWord(n / 10);
      assert m >= 10 && n >= 10;
      assert Decimal(m / 10) == s[..|s| - 1] == Decimal(n / 10);
      DecimalInjective(m / 10, n / 10);
    }
  }

  function Pow10(k: nat): nat {
    if k == 0 then 1 else 10 * Pow10(k - 1)
  }

  lemma {:induction false} DecimalLength(n: nat, k: nat)
    requires k >= 1 && n < Pow10(k)
    ensures |Decimal(n)| <= k
  {
    if n >= 10 {
      assert Pow10(1) == 10 * Pow10(0);
      DecimalLength(n / 10, k - 1);
    }
  }

  /** Every suffix a safe integer can name takes at most 17 characters. */
  lemma SuffixTextShort(n: nat)
    requires n <= MAX_SAFE_INTEGER
    ensures 2 <= |SuffixText(n)| <= 17
  {
    assert Pow10(4) == 10000;
    assert Pow10(8) == 100000000;
    assert Pow10(12) == 1000000000000;
    assert Pow10(16) == 10000000000000000;
    DecimalLength(n, 16);
    DecimalIsWord(n);
  }

  /** An accepted suffix stays inside the pattern and the length bound, and keeps room for at least one character. */
  lemma AppendIsSlug(slug: string, suffix: int, fallback: string, maxLength: int)
    ensures AppendSuffix(slug, suffix, fallback, maxLength).Slug? <==>
      1 <= suffix <= 9007199254740991 && 1 <= maxLength <= 9007199254740991 && |Decimal(suffix)| + 1 < maxLength
    ensures var r := AppendSuffix(slug, suffix, fallback, maxLength);
      r.Slug? ==> IsSlug(r.slug) && |r.slug| <= maxLength
  {
    if AppendSuffix(slug, suffix, fallback, maxLength).Slug? {
      var room := maxLength - |SuffixText(suffix)|;
      NormalizeIsSlug(slug, fallback, room);
      SlugWithSuffix(Normalize(slug, fallback, room), suffix);
    }
  }

  /** The number a string of digits names. */
  function Value(s: string): int {
    if s == "" then 0 else 10 * Value(s[..|s| - 1]) + (s[|s| - 1] as int - '0' as int)
  }

  lemma {:induction false} DecimalValue(n: nat)
    ensures Value(Decimal(n)) == n
  {
    if n >= 10 {
      var s := Decimal(n);
      assert s[..|s| - 1] == Decimal(n / 10) && s[|s| - 1] == DigitChar(n % 10);
      DecimalValue(n / 10);
    } else {
      assert Value("") == 0;
    }
  }

  /** r is a longest slug of the source that leaves room, a hyphen, and digits naming the number. */
  ghost predicate Numbered(source: string, n: int, number: int, r: string, base: string, digits: string) {
    && r == base + "-" + digits && Value(digits) == number && IsWord(digits)
    && LongestSlugPrefix(source, n - 1 - |digits|, base)
  }

  /** An accepted suffix follows, after a hyphen, the longest slug of the words that leaves it room, and names its number. */
  lemma AppendResult(slug: string, suffix: int, fallback: string, maxLength: int) returns (base: string, digits: string)
    requires AppendSuffix(slug, suffix, fallback, maxLength).Slug?
    ensures Numbered(Source(slug, fallback), maxLength, suffix, AppendSuffix(slug, suffix, fallback, maxLength).slug, base, digits)
  {
    digits := Decimal(suffix);
    var room := maxLength - 1 - |digits|;
    base := Normalize(slug, fallback, room);
    NormalizeIsLongest(slug, fallback, room);
    DecimalValue(suffix);
    DecimalIsWord(suffix);
    Associate(base, digits);
  }

  lemma AppendToSlug(slug: string, suffix: int, fallback: string, maxLength: int) returns (cut: string, digits: string)
    requires IsSlug(slug) && AppendSuffix(slug, suffix, fallback, maxLength).Slug?
    ensures Numbered(slug, maxLength, suffix, AppendSuffix(slug, suffix, fallback, maxLength).slug, cut, digits)
  {
    SlugIsItsWords(slug, fallback);
    cut, digits := AppendResult(slug, suffix, fallback, maxLength);
  }

  lemma SlugWithSuffix(base: string, n: nat)
    requires IsSlug(base)
    ensures IsSlug(base + SuffixText(n))
  {
    DecimalIsWord(n);
    SlugWithWord(base, Decimal(n));
    assert base + SuffixText(n) == base + "-" + Decimal(n);
  }

  lemma SlugWithWord(base: string, w: string)
    requires IsSlug(base) && IsWord(w)
    ensures IsSlug(base + "-" + w)
  {
    var s := base + "-" + w;
    forall i | 0 <= i < |s| ensures IsSlugChar(s[i]) {
      if i < |base| { assert s[i] == base[i]; } else if i > |base| { assert s[i] == w[i - |base| - 1]; }
    }
    forall i, j | 0 <= i < |s| && j == i + 1 < |s| ensures s[i] != '-' || s[j] != '-' {
      if j < |base| { assert s[i] == base[i] && s[j] == base[j]; }
      else if j == |base| { assert s[i] == base[i]; }
      else { assert s[j] == w[j - |base| - 1]; }
    }
    assert s[0] == base[0] && s[|s| - 1] == w[|w| - 1];
  }

  /** The last hyphen decides the suffix: equal results have equal suffixes, whatever was truncated. */
  lemma AppendInjective(a: string, b: string, i: int, j: int, fallback: string, maxLength: int)
    requires AppendSuffix(a, i, fallback, maxLength).Slug? && AppendSuffix(b, j, fallback, maxLength).Slug?
    requires AppendSuffix(a, i, fallback, maxLength) == AppendSuffix(b, j, fallback, maxLength)
    ensures i == j
  {
    SuffixDecides(Normalize(a, fallback, maxLength - |SuffixText(i)|), Normalize(b, fallback, maxLength - |SuffixText(j)|), i, j);
  }

  lemma SuffixDecides(p: string, q: string, i: nat, j: nat)
    requires p + SuffixText(i) == q + SuffixText(j)
    ensures i == j
  {
    var s := p + SuffixText(i);
    LastHyphen(s, p, i);
    LastHyphen(s, q, j);
    assert s[|p|] == s[|q|] == '-';
    assert Decimal(i) == s[|p| + 1..] && Decimal(j) == s[|q| + 1..];
    DecimalInjective(i, j);
  }

  lemma LastHyphen(s: string, base: string, n: nat)
    requires s == base + SuffixText(n)
    ensures s[|base|] == '-'
    ensures forall k :: |base| < k < |s| ==> s[k] != '-'
  {
    DecimalIsWord(n);
    forall k | |base| < k < |s| ensures s[k] != '-' {
      assert s[k] == Decimal(n)[k - |base| - 1];
    }
  }
}
