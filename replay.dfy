/**
  The record and playback line format of the 2048 engine (2048_game.c,
  get_input and record).

  A recorded game is a file of lines `key:score\n`, one per accepted
  move; playing it back reads one line per turn and takes the first
  character after leading spaces and tabs as the key.  Files are byte
  sequences here; the reading and writing themselves are not modelled.
*/
module Replay {
  import opened Wrappers

  newtype Byte = x: int | 0 <= x < 256

  const Tab: Byte := 9
  const Newline: Byte := 10
  const Space: Byte := 32
  const Minus: Byte := 45
  const Zero: Byte := 48
  const Colon: Byte := 58

  /** 'q': the key get_input reports at end of file, and the quit key. */
  const KeyQuit: int := 113

  predicate IsBlank(b: Byte)
  {
    b == Space || b == Tab
  }

  predicate IsDigit(b: Byte)
  {
    Zero <= b <= Zero + 9
  }

  /** A byte read into a `char` and widened to `int`, with `char` signed
      as on the common Unix ABIs. */
  function SignedChar(b: Byte): (k: int)
    ensures -128 <= k < 128
    ensures k % 256 == b as int
  {
    if b < 128 then b as int else b as int - 256
  }

  /** strspn(line, " \t"): the length of the run of spaces and tabs at
      the front of the line. */
  function LeadingBlanks(line: seq<Byte>): (n: nat)
    ensures n <= |line|
    ensures forall i :: 0 <= i < n ==> IsBlank(line[i])
    ensures n < |line| ==> !IsBlank(line[n])
  {
    if line == [] || !IsBlank(line[0]) then 0 else 1 + LeadingBlanks(line[1..])
  }

  /** get_input in playback mode: 'q' at end of file (None) or when
      nothing was read, otherwise the character after the leading blanks;
      a line of blanks only yields the string terminator 0. */
  function KeyOfLine(line: Option<seq<Byte>>): (k: int)
    ensures line.None? ==> k == KeyQuit
    ensures -128 <= k < 128
  {
    match line
    case None => KeyQuit
    case Some(l) =>
      if |l| == 0 then KeyQuit
      else
        var n := LeadingBlanks(l);
        if n < |l| then SignedChar(l[n]) else 0
  }

  /** The decimal digits of n, most significant first, without leading
      zeros. */
  function Digits(n: nat): (r: seq<Byte>)
    ensures |r| >= 1
    ensures forall i :: 0 <= i < |r| ==> IsDigit(r[i])
    ensures r[0] == Zero ==> n == 0
  {
    if n < 10 then [Zero + n as Byte] else Digits(n / 10) + [Zero + (n % 10) as Byte]
  }

  /** printf's %d. */
  function Decimal(n: int): (r: seq<Byte>)
    ensures |r| >= 1
  {
    if n < 0 then [Minus] + Digits(-n) else Digits(n)
  }

  /** record: the line `"%c:%d\n"` for a key and a score; %c writes the
      low byte of the key. */
  function RecordLine(key: int, score: int): (line: seq<Byte>)
    ensures |line| >= 4
    ensures line[1] == Colon && line[|line| - 1] == Newline
  {
    [(key % 256) as Byte, Colon] + Decimal(score) + [Newline]
  }

  // ---------------------------------------------------------------------
  // Reading a recorded line back

  /** The value of a string of decimal digits. */
  function DigitsValue(s: seq<Byte>): nat
  {
    if s == [] then 0
    else 10 * DigitsValue(s[..|s| - 1]) + (if IsDigit(s[|s| - 1]) then (s[|s| - 1] - Zero) as nat else 0)
  }

  predicate AllDigits(s: seq<Byte>)
  {
    forall i :: 0 <= i < |s| ==> IsDigit(s[i])
  }

  /** The number written by %d, if s is one. */
  function ParseDecimal(s: seq<Byte>): Option<int>
  {
    if |s| >= 2 && s[0] == Minus && AllDigits(s[1..]) then
      var v: int := DigitsValue(s[1..]); Some(-v)
    else if |s| >= 1 && AllDigits(s) then Some(DigitsValue(s))
    else None
  }

  /** The key byte and the score of a recorded line, if it is one. */
  function ParseRecord(line: seq<Byte>): Option<(Byte, int)>
  {
    if |line| >= 4 && line[1] == Colon && line[|line| - 1] == Newline then
      match ParseDecimal(line[2..|line| - 1])
      case None => None
      case Some(score) => Some((line[0], score))
    else None
  }

  lemma {:induction false} DigitsRoundTrip(n: nat)
    ensures DigitsValue(Digits(n)) == n
  {
    if n >= 10 {
      var d := Digits(n);
      DigitsRoundTrip(n / 10);
      assert d[..|d| - 1] == Digits(n / 10);
    }
  }

  /** %d is read back as the same number. */
  lemma DecimalRoundTrip(n: int)
    ensures ParseDecimal(Decimal(n)) == Some(n)
  {
    DigitsRoundTrip(if n < 0 then -n else n);
    if n < 0 {
      assert Decimal(n)[1..] == Digits(-n);
    }
  }

  /** A recorded line is read back as the low byte of its key and its
      score. */
  lemma RecordRoundTrip(key: int, score: int)
    ensures ParseRecord(RecordLine(key, score)) == Some(((key % 256) as Byte, score))
  {
    var line := RecordLine(key, score);
    assert line[2..|line| - 1] == Decimal(score);
    DecimalRoundTrip(score);
  }

  // ---------------------------------------------------------------------
  // Playback keys

  /** The key of a read line is its first byte that is not a space or a
      tab. */
  lemma KeyIsFirstNonBlank(l: seq<Byte>, i: nat)
    requires i < |l| && !IsBlank(l[i])
    requires forall j :: 0 <= j < i ==> IsBlank(l[j])
    ensures KeyOfLine(Some(l)) == SignedChar(l[i])
  {
  }

  /** A read line of spaces and tabs only yields the terminator 0, which
      is no key of the game. */
  lemma BlankLineKey(l: seq<Byte>)
    requires |l| > 0
    requires forall j :: 0 <= j < |l| ==> IsBlank(l[j])
    ensures KeyOfLine(Some(l)) == 0
  {
  }

  /** An empty line yields '\n', not the quit key. */
  lemma EmptyLineKey()
    ensures KeyOfLine(Some([Newline])) == Newline as int
    ensures KeyOfLine(Some([Newline])) != KeyQuit
  {
    assert LeadingBlanks([Newline]) == 0;
  }

  /** Playback quits at end of file, and otherwise only on a line whose
      first non-blank byte is 'q'. */
  lemma QuitKey(line: Option<seq<Byte>>)
    ensures KeyOfLine(line) == KeyQuit <==>
      match line
      case None => true
      case Some(l) =>
        |l| == 0 || (LeadingBlanks(l) < |l| && l[LeadingBlanks(l)] as int == KeyQuit)
  {
  }

  /** A recorded key is replayed as the same key when its code is an
      ASCII byte other than a space or a tab, as the letter keys are. */
  lemma RecordedKeyReplays(key: int, score: int)
    requires 0 <= key < 128 && !IsBlank(key as Byte)
    ensures KeyOfLine(Some(RecordLine(key, score))) == key
  {
    KeyIsFirstNonBlank(RecordLine(key, score), 0);
  }
}
