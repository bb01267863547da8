/** The texts a dataset directory is made of: decimal names, slash-joined paths, checksum lines. */
module DatasetText {

  /* ---- decimal names ---- */

  predicate IsDigit(c: char) {
    '0' <= c <= '9'
  }

  predicate AllDigits(s: string) {
    s != "" && forall i :: 0 <= i < |s| ==> IsDigit(s[i])
  }

  function Digit(d: nat): char
    requires d < 10
  {
    '0' + d as char
  }

  function Decimal(n: nat): string {
    if n < 10 then [Digit(n)] else Decimal(n / 10) + [Digit(n % 10)]
  }

  /** The number a name of digits spells, leading zeros and all. */
  function Value(s: string): nat
    requires forall i :: 0 <= i < |s| ==> IsDigit(s[i])
  {
    if s == "" then 0
    else
      assert IsDigit(s[|s| - 1]);
      10 * Value(s[..|s| - 1]) + (s[|s| - 1] as int - '0' as int)
  }

  lemma {:induction false} DecimalReadsBack(n: nat)
    ensures AllDigits(Decimal(n)) && Value(Decimal(n)) == n
  {
    if n < 10 {
      assert Decimal(n)[..0] == "";
    } else {
      DecimalReadsBack(n / 10);
      assert Decimal(n)[..|Decimal(n)| - 1] == Decimal(n / 10);
    }
  }

  /* ---- paths ---- */

  predicate IsSpace(c: char) {
    c == ' ' || c == '\t' || c == '\n' || c == '\r'
  }

  /** A path component, or a digest: some text without blanks, slashes or backslashes. */
  predicate Plain(s: string) {
    s != "" && forall i :: 0 <= i < |s| ==> !IsSpace(s[i]) && s[i] != '/' && s[i] != '\\'
  }

  type Path = seq<string>

  predicate PlainPath(p: Path) {
    p != [] && forall i :: 0 <= i < |p| ==> Plain(p[i])
  }

  function Posix(p: Path): string {
    if p == [] then "" else if |p| == 1 then p[0] else Posix(p[..|p| - 1]) + "/" + p[|p| - 1]
  }

  /** The components between slashes. */
  function Parts(s: string): (p: Path)
    ensures p != []
  {
    if s == "" then [""]
    else
      var p := Parts(s[..|s| - 1]);
      if s[|s| - 1] == '/' then p + [""] else p[|p| - 1 := p[|p| - 1] + [s[|s| - 1]]]
  }

  lemma {:induction false} PartsOfWord(s: string, w: string)
    requires forall i :: 0 <= i < |w| ==> w[i] != '/'
    ensures Parts(s + "/" + w) == Parts(s) + [w]
  {
    if w == "" {
      assert (s + "/")[..|s|] == s;
      assert s + "/" + w == s + "/";
    } else {
      var u := w[..|w| - 1];
      PartsOfWord(s, u);
      assert (s + "/" + w)[..|s + "/" + w| - 1] == s + "/" + u;
      assert u + [w[|w| - 1]] == w;
    }
  }

  lemma {:induction false} PartsOfOneWord(w: string)
    requires forall i :: 0 <= i < |w| ==> w[i] != '/'
    ensures Parts(w) == [w]
  {
    if w != "" {
      PartsOfOneWord(w[..|w| - 1]);
      assert w[..|w| - 1] + [w[|w| - 1]] == w;
    }
  }

  /** Splitting the text of a path gives the path back. */
  lemma {:induction false} PosixReadsBack(p: Path)
    requires PlainPath(p)
    ensures Parts(Posix(p)) == p
  {
    if |p| == 1 {
      PartsOfOneWord(p[0]);
    } else {
      var t, w := p[..|p| - 1], p[|p| - 1];
      PosixReadsBack(t);
      PartsOfWord(Posix(t), w);
      assert p == t + [w];
    }
  }

  predicate Blankless(s: string) {
    s != "" && forall i :: 0 <= i < |s| ==> !IsSpace(s[i]) && s[i] != '\\'
  }

  lemma {:induction false} PosixIsBlankless(p: Path)
    requires PlainPath(p)
    ensures Blankless(Posix(p))
  {
    if |p| > 1 {
      PosixIsBlankless(p[..|p| - 1]);
    }
  }

  /** Backslashes read as slashes. */
  function Forward(s: string): (r: string)
    ensures |r| == |s| && forall i :: 0 <= i < |s| ==> r[i] == if s[i] == '\\' then '/' else s[i]
  {
    seq(|s|, i requires 0 <= i < |s| => if s[i] == '\\' then '/' else s[i])
  }

  /* ---- checksum lines ---- */

  function LeftTrim(s: string): string {
    if s != "" && IsSpace(s[0]) then LeftTrim(s[1..]) else s
  }

  function RightTrim(s: string): string {
    if s != "" && IsSpace(s[|s| - 1]) then RightTrim(s[..|s| - 1]) else s
  }

  /** Where the first blank is, or the length. */
  function WordEnd(s: string): (n: nat)
    ensures n <= |s|
  {
    if s == "" || IsSpace(s[0]) then 0 else 1 + WordEnd(s[1..])
  }

  function ChecksumLine(digest: string, rel: string): string {
    digest + "  " + rel
  }

  datatype Parsed = Skipped | Entry(rel: string, digest: string) | Malformed

  /** Trimmed; blank and comment lines skipped; the first word apart from the rest. */
  function ParseLine(line: string): Parsed {
    var t := RightTrim(LeftTrim(line));
    if t == "" || t[0] == '#' then Skipped
    else
      var n := WordEnd(t);
      var rest := LeftTrim(t[n..]);
      if rest == "" then Malformed else Entry(Forward(rest), t[..n])
  }

  predicate Digest(s: string) {
    Plain(s) && s[0] != '#'
  }

  lemma {:induction false} WordEndOf(w: string, rest: string)
    requires forall i :: 0 <= i < |w| ==> !IsSpace(w[i])
    requires rest != "" && IsSpace(rest[0])
    ensures WordEnd(w + rest) == |w|
  {
    if w == "" {
      assert w + rest == rest;
    } else {
      assert (w + rest)[1..] == w[1..] + rest;
      WordEndOf(w[1..], rest);
    }
  }

  /** A written checksum line parses back to its digest and path. */
  lemma ChecksumLineReadsBack(digest: string, rel: string)
    requires Digest(digest) && Blankless(rel)
    ensures ParseLine(ChecksumLine(digest, rel)) == Entry(rel, digest)
  {
    var line := ChecksumLine(digest, rel);
    assert line[0] == digest[0] && line[|line| - 1] == rel[|rel| - 1];
    assert line == digest + ("  " + rel);
    WordEndOf(digest, "  " + rel);
    assert line[|digest|..] == "  " + rel;
    assert ("  " + rel)[1..] == " " + rel;
    assert (" " + rel)[1..] == rel;
    assert LeftTrim(" " + rel) == rel;
    assert LeftTrim("  " + rel) == rel;
    assert Forward(rel) == rel;
  }

  /** Blank lines and comments are skipped, and a line of one word cannot be read. */
  lemma LinesApart(text: string, word: string)
    requires Plain(word) && word[0] != '#'
    ensures ParseLine("") == Skipped && ParseLine("#" + text) == Skipped && ParseLine(word) == Malformed
  {
    CommentStays(text);
    WordStays(word);
    WordEndAlone(word);
    assert word[|word|..] == "";
  }

  lemma {:induction false} CommentStays(text: string)
    ensures var t := RightTrim(LeftTrim("#" + text)); t != "" && t[0] == '#'
  {
    if text != "" && IsSpace(text[|text| - 1]) {
      CommentStays(text[..|text| - 1]);
      assert ("#" + text)[..|text|] == "#" + text[..|text| - 1];
    }
  }

  lemma WordStays(word: string)
    requires Plain(word)
    ensures RightTrim(LeftTrim(word)) == word
  {
  }

  lemma {:induction false} WordEndAlone(word: string)
    requires forall i :: 0 <= i < |word| ==> !IsSpace(word[i])
    ensures WordEnd(word) == |word|
  {
    if word != "" {
      WordEndAlone(word[1..]);
    }
  }
}
