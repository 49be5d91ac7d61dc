/** Dice expressions: a short text such as "4", "D3" or "2D6+1" that yields a
    fixed number or the sum of some dice plus a modifier each time it is rolled. */
module Dice {
  import opened Wrappers
  import opened Text
  import opened Randomness

  /** Why rolling an expression fails: its text is neither a digit literal nor
      of the form `[count]d faces [+-mod]`, or it asks for dice of zero faces
      (where `random.randint(1, 0)` raises). */
  datatype DiceError = UnsupportedExpression(raw: string) | EmptyRange(faces: nat)

  /** What a normalised expression text denotes. */
  datatype Form = Literal(value: nat) | Dice(count: nat, faces: nat, modifier: int)

  /** Number of dice a form draws. */
  function Draws(f: Form): nat {
    match f
    case Literal(_) => 0
    case Dice(count, _, _) => count
  }

  /** The text is trimmed and lower-cased before it is read. */
  function Normalize(raw: string): string {
    Lower(Strip(raw))
  }

  /** The optional `[+-]\d+` suffix of a dice pattern, read as Python's `int()`
      reads it; `None` when the suffix is anything else. */
  function ParseModifier(s: string): Option<int> {
    if s == [] then Some(0)
    else if (s[0] == '+' || s[0] == '-') && IsDigits(s[1..]) then
      var n := DigitsValue(s[1..]);
      Some(if s[0] == '-' then -(n as int) else n)
    else None
  }

  /** The regular expression `^(\d*)d(\d+)([+-]\d+)?$` on normalised text: the
      count runs up to the first non-digit, which must be `d`. */
  function ParsePattern(c: string): Option<Form> {
    var k := LeadingDigitCount(c);
    if k < |c| && c[k] == 'd' then ParseFaces(c[..k], c[k + 1..]) else None
  }

  /** The part of the pattern after the `d`: the faces are the digits that
      follow it and what comes after them is the modifier. An empty count
      means one die. */
  function ParseFaces(countText: string, rest: string): Option<Form>
    requires forall i :: 0 <= i < |countText| ==> IsDigit(countText[i])
  {
    var j := LeadingDigitCount(rest);
    if j == 0 then None
    else
      match ParseModifier(rest[j..])
      case None => None
      case Some(m) =>
        Some(Dice(if countText == [] then 1 else DigitsValue(countText), DigitsValue(rest[..j]), m))
  }

  /** Normalised text is a digit literal or a dice pattern, or neither. */
  function Read(c: string): Option<Form> {
    if IsDigits(c) then Some(Literal(DigitsValue(c))) else ParsePattern(c)
  }

  /** How `DiceExpression.roll` reads its text. */
  function Parse(raw: string): Result<Form, DiceError> {
    match Read(Normalize(raw))
    case None => Failure(UnsupportedExpression(raw))
    case Some(f) => Success(f)
  }

  /** Sum of the `n` dice drawn from position `p` on. */
  function SumDice(source: nat -> nat, p: nat, n: nat, faces: nat): int
    requires n == 0 || faces >= 1
  {
    if n == 0 then 0 else SumDice(source, p, n - 1, faces) + Die(source, p + n - 1, faces)
  }

  lemma {:induction false} SumDiceBounds(source: nat -> nat, p: nat, n: nat, faces: nat)
    requires faces >= 1
    ensures n <= SumDice(source, p, n, faces) <= n * faces
  {
    if n > 0 {
      SumDiceBounds(source, p, n - 1, faces);
      assert (n - 1) * faces + faces == n * faces;
    }
  }

  /** The value of a parsed form drawn from position `p` of `source`, with the
      position after the dice it drew. */
  function EvalForm(f: Form, source: nat -> nat, p: nat): Result<(int, nat), DiceError> {
    match f
    case Literal(v) => Success((v, p))
    case Dice(count, faces, modifier) =>
      if count > 0 && faces == 0 then Failure(EmptyRange(faces))
      else Success((modifier + SumDice(source, p, count, faces), p + count))
  }

  /** A roll of text already read: the read form rolled from position `p`,
      or the failure to read it. */
  function EvalRead(read: Result<Form, DiceError>, source: nat -> nat, p: nat): Result<(int, nat), DiceError> {
    match read
    case Failure(e) => Failure(e)
    case Success(f) => EvalForm(f, source, p)
  }

  /** A method's result paired with the roller's position after it; a
      failure carries no position. */
  function WithPosition<T>(r: Result<T, DiceError>, drawn: nat): Result<(T, nat), DiceError> {
    match r
    case Success(v) => Success((v, drawn))
    case Failure(e) => Failure(e)
  }

  /** The loop of `DiceExpression.roll` that adds up `count` dice. */
  method RollDice(count: nat, faces: nat, rng: Roller) returns (total: int)
    requires count == 0 || faces >= 1
    modifies rng
    ensures total == SumDice(rng.source, old(rng.drawn), count, faces)
    ensures rng.drawn == old(rng.drawn) + count
  {
    total := 0;
    for i := 0 to count
      invariant rng.drawn == old(rng.drawn) + i
      invariant total == SumDice(rng.source, old(rng.drawn), i, faces)
    {
      var d := rng.Roll(faces);
      total := total + d;
    }
  }

  /** `DiceExpression.roll` once its text is read: a literal draws nothing; a
      pattern fails on dice of no faces and otherwise adds `count` dice to the
      modifier. */
  method RollForm(form: Form, rng: Roller) returns (r: Result<int, DiceError>)
    modifies rng
    ensures WithPosition(r, rng.drawn) == EvalForm(form, rng.source, old(rng.drawn))
    ensures r.Failure? ==> rng.drawn == old(rng.drawn)
  {
    match form
    case Literal(v) =>
      r := Success(v);
    case Dice(count, faces, modifier) =>
      if count > 0 && faces == 0 {
        return Failure(EmptyRange(faces));
      }
      var total := RollDice(count, faces, rng);
      r := Success(modifier + total);
  }

  /** A dice quantity, kept as the text it was read from. */
  datatype DiceExpression = DiceExpression(raw: string) {

    /** The value of one roll drawn from position `p` of `source`, with the
        position after the dice it drew. */
    function Eval(source: nat -> nat, p: nat): Result<(int, nat), DiceError> {
      EvalRead(Parse(raw), source, p)
    }

    /** `DiceExpression.roll`: a fresh value, drawing `count` dice for a dice
        pattern and none for a literal. */
    method Roll(rng: Roller) returns (r: Result<int, DiceError>)
      modifies rng
      ensures WithPosition(r, rng.drawn) == Eval(rng.source, old(rng.drawn))
      ensures r.Failure? ==> rng.drawn == old(rng.drawn)
    {
      var form := Parse(raw);
      if form.Failure? {
        return Failure(form.error);
      }
      r := RollForm(form.value, rng);
    }

    /** `DiceExpression.from_value` on an int: the expression of its decimal text. */
    static function FromInt(n: int): DiceExpression {
      DiceExpression(IntToString(n))
    }
  }

  /** A text of digits, after trimming and lower-casing, rolls as its integer
      value and draws nothing. */
  lemma LiteralRolls(raw: string, source: nat -> nat, p: nat)
    requires IsDigits(Normalize(raw))
    ensures DiceExpression(raw).Eval(source, p) == Success((DigitsValue(Normalize(raw)), p))
  {
  }

  /** A dice pattern draws exactly `count` dice, and its value lies between
      `count + mod` and `count * faces + mod`. */
  lemma DiceRollBounds(raw: string, source: nat -> nat, p: nat)
    requires Parse(raw).Success? && Parse(raw).value.Dice?
    requires Parse(raw).value.count == 0 || Parse(raw).value.faces >= 1
    ensures var f := Parse(raw).value;
      var e := DiceExpression(raw).Eval(source, p);
      && e.Success? && e.value.1 == p + f.count
      && f.count + f.modifier <= e.value.0 <= f.count * f.faces + f.modifier
  {
    var f := Parse(raw).value;
    FormBounds(f.count, f.faces, f.modifier, source, p);
  }

  lemma FormBounds(count: nat, faces: nat, m: int, source: nat -> nat, p: nat)
    requires count == 0 || faces >= 1
    ensures var e := EvalForm(Dice(count, faces, m), source, p);
      && e.Success? && e.value.1 == p + count
      && count + m <= e.value.0 <= count * faces + m
  {
    if count > 0 {
      SumDiceBounds(source, p, count, faces);
    }
  }

  /** Rolling fails exactly when the text does not parse or asks for at least
      one die with no faces; on failure nothing is drawn. */
  lemma RollFailure(raw: string, source: nat -> nat, p: nat)
    ensures DiceExpression(raw).Eval(source, p).Failure? <==>
      (Parse(raw).Failure? || (Parse(raw).value.Dice? && Parse(raw).value.count > 0 && Parse(raw).value.faces == 0))
    ensures Parse(raw).Failure? <==>
      !IsDigits(Normalize(raw)) && !exists cs, fs, ms :: PatternShape(Normalize(raw), cs, fs, ms)
  {
    ReadMatches(Normalize(raw));
  }

  /** Whatever the dice show, a successful roll draws exactly as many dice as
      its form names. */
  lemma RollDraws(raw: string, source: nat -> nat, p: nat)
    requires DiceExpression(raw).Eval(source, p).Success?
    ensures DiceExpression(raw).Eval(source, p).value.1 == p + Draws(Parse(raw).value)
  {
  }

  /** Surrounding whitespace and letter case do not change how a text is read
      or rolled. */
  lemma WhitespaceAndCaseIgnored(w1: string, s: string, t: string, w2: string, source: nat -> nat, p: nat)
    requires AllSpace(w1) && AllSpace(w2) && Lower(s) == Lower(t)
    ensures Normalize(w1 + s + w2) == Normalize(t)
    ensures Parse(w1 + s + w2).Success? <==> Parse(t).Success?
    ensures Parse(t).Success? ==> Parse(w1 + s + w2) == Parse(t)
    ensures DiceExpression(w1 + s + w2).Eval(source, p).Success? ==>
      DiceExpression(w1 + s + w2).Eval(source, p) == DiceExpression(t).Eval(source, p)
  {
    SameNormalForm(w1, s, t, w2);
  }

  lemma SameNormalForm(w1: string, s: string, t: string, w2: string)
    requires AllSpace(w1) && AllSpace(w2) && Lower(s) == Lower(t)
    ensures Normalize(w1 + s + w2) == Normalize(t)
  {
    StripPadded(w1, s, w2);
    LowerStrip(s);
    LowerStrip(t);
  }

  /** The text of a modifier as a pattern writes it; none for zero. */
  function ModifierText(m: int): string {
    if m > 0 then "+" + NatToString(m) else if m < 0 then "-" + NatToString(-m) else ""
  }

  lemma ModifierRoundTrip(m: int)
    ensures ParseModifier(ModifierText(m)) == Some(m)
  {
    if m > 0 {
      NatToStringRoundTrip(m);
      assert ModifierText(m)[1..] == NatToString(m);
    } else if m < 0 {
      NatToStringRoundTrip(-m);
      assert ModifierText(m)[1..] == NatToString(-m);
    }
  }

  lemma {:induction false} LeadingDigitsOfDigits(d: string, rest: string)
    requires IsDigits(d)
    requires rest == [] || !IsDigit(rest[0])
    ensures LeadingDigitCount(d + rest) == |d|
  {
    if |d| > 1 {
      assert (d + rest)[1..] == d[1..] + rest;
      LeadingDigitsOfDigits(d[1..], rest);
    } else {
      assert (d + rest)[1..] == rest;
    }
  }

  predicate NormalText(text: string) {
    forall i :: 0 <= i < |text| ==> !IsSpace(text[i]) && !('A' <= text[i] <= 'Z')
  }

  lemma NormalizeLowerText(text: string)
    requires NormalText(text)
    ensures Normalize(text) == text
  {
    StripOfStripped(text);
    var l := Lower(text);
    assert |l| == |text|;
    forall i | 0 <= i < |text| ensures l[i] == text[i] {
      assert !('A' <= text[i] <= 'Z');
    }
    assert l == text;
  }

  /** Text that is already trimmed and in lower case is read as it stands. */
  lemma ParseNormalText(text: string)
    requires NormalText(text)
    ensures Parse(text) == match Read(text)
      case None => Failure(UnsupportedExpression(text))
      case Some(f) => Success(f)
  {
    NormalizeLowerText(text);
  }

  /** The pattern reader takes the count, the faces and the modifier apart
      again from their texts. */
  lemma CountBeforeD(cs: string, rest: string)
    requires cs == [] || IsDigits(cs)
    ensures ParsePattern(cs + "d" + rest) == ParseFaces(cs, rest)
  {
    var text := cs + "d" + rest;
    assert text == cs + ("d" + rest);
    if cs == [] {
      assert LeadingDigitCount(text) == 0;
    } else {
      LeadingDigitsOfDigits(cs, "d" + rest);
    }
    assert text[|cs|] == 'd';
    assert text[|cs| + 1..] == rest;
    assert text[..|cs|] == cs;
  }

  lemma FacesThenModifier(cs: string, fs: string, ms: string, m: int)
    requires cs == [] || IsDigits(cs)
    requires IsDigits(fs)
    requires ParseModifier(ms) == Some(m)
    requires ms == [] || ms[0] == '+' || ms[0] == '-'
    ensures ParseFaces(cs, fs + ms) == Some(Dice(if cs == [] then 1 else DigitsValue(cs), DigitsValue(fs), m))
  {
    LeadingDigitsOfDigits(fs, ms);
    assert (fs + ms)[|fs|..] == ms;
    assert (fs + ms)[..|fs|] == fs;
  }

  lemma ReadPatternParts(cs: string, fs: string, ms: string, m: int)
    requires cs == [] || IsDigits(cs)
    requires IsDigits(fs)
    requires ParseModifier(ms) == Some(m)
    requires ms == [] || ms[0] == '+' || ms[0] == '-'
    ensures ParsePattern(cs + "d" + fs + ms) ==
      Some(Dice(if cs == [] then 1 else DigitsValue(cs), DigitsValue(fs), m))
  {
    assert cs + "d" + fs + ms == cs + "d" + (fs + ms);
    CountBeforeD(cs, fs + ms);
    FacesThenModifier(cs, fs, ms, m);
  }

  /** The optional group `([+-]\d+)?` of the pattern: nothing, or a sign
      followed by at least one digit. */
  predicate ModifierShape(ms: string) {
    ms == [] || ((ms[0] == '+' || ms[0] == '-') && IsDigits(ms[1..]))
  }

  /** `c` matches `^(\d*)d(\d+)([+-]\d+)?$` with `cs`, `fs` and `ms` as its
      three groups. */
  predicate PatternShape(c: string, cs: string, fs: string, ms: string) {
    c == cs + "d" + fs + ms && (cs == [] || IsDigits(cs)) && IsDigits(fs) && ModifierShape(ms)
  }

  /** The count a pattern's first group denotes: one when it is empty. */
  function CountOf(cs: string): nat
    requires cs == [] || IsDigits(cs)
  {
    if cs == [] then 1 else DigitsValue(cs)
  }

  /** The modifier reader accepts exactly the modifier group. */
  lemma ModifierShapeParses(ms: string)
    ensures ParseModifier(ms).Some? <==> ModifierShape(ms)
  {
  }

  /** Every text matching the pattern is read, whichever way it is split
      into the three groups, as the count, faces and modifier of the groups. */
  lemma PatternAccepts(c: string, cs: string, fs: string, ms: string)
    requires PatternShape(c, cs, fs, ms)
    ensures ParsePattern(c) == Some(Dice(CountOf(cs), DigitsValue(fs), ParseModifier(ms).value))
  {
    ModifierShapeParses(ms);
    ReadPatternParts(cs, fs, ms, ParseModifier(ms).value);
  }

  /** Every text the pattern reader accepts matches the pattern: the groups
      returned split it as the regular expression does, and the form read is
      the count, faces and modifier of those groups. */
  lemma AcceptedMatches(c: string) returns (cs: string, fs: string, ms: string)
    requires ParsePattern(c).Some?
    ensures PatternShape(c, cs, fs, ms)
    ensures ParsePattern(c) == Some(Dice(CountOf(cs), DigitsValue(fs), ParseModifier(ms).value))
  {
    var k := LeadingDigitCount(c);
    var rest := c[k + 1..];
    var j := LeadingDigitCount(rest);
    cs, fs, ms := c[..k], rest[..j], rest[j..];
    assert c[k] == 'd';
    assert c == cs + "d" + fs + ms by {
      assert rest == fs + ms;
      assert c == c[..k] + [c[k]] + c[k + 1..];
    }
    ModifierShapeParses(ms);
  }

  /** The pattern reader accepts a text exactly when it matches
      `^(\d*)d(\d+)([+-]\d+)?$`. */
  lemma PatternIff(c: string)
    ensures ParsePattern(c).Some? <==> exists cs, fs, ms :: PatternShape(c, cs, fs, ms)
  {
    if ParsePattern(c).Some? {
      var cs, fs, ms := AcceptedMatches(c);
    } else if cs, fs, ms :| PatternShape(c, cs, fs, ms) {
      PatternAccepts(c, cs, fs, ms);
      assert false;
    }
  }

  /** Normalised text is read exactly when it is all digits or matches the
      pattern. */
  lemma ReadMatches(c: string)
    ensures Read(c).Some? <==> IsDigits(c) || exists cs, fs, ms :: PatternShape(c, cs, fs, ms)
  {
    PatternIff(c);
  }

  lemma ModifierTextShape(m: int)
    ensures NormalText(ModifierText(m))
    ensures ModifierText(m) == [] || ModifierText(m)[0] == '+' || ModifierText(m)[0] == '-'
  {
  }

  lemma NormalConcat(a: string, b: string)
    requires NormalText(a) && NormalText(b)
    ensures NormalText(a + b)
  {
    forall i | 0 <= i < |a + b| ensures !IsSpace((a + b)[i]) && !('A' <= (a + b)[i] <= 'Z') {
      if i >= |a| {
        assert (a + b)[i] == b[i - |a|];
      }
    }
  }

  lemma PatternTextNormal(cs: string, fs: string, ms: string)
    requires (cs == [] || IsDigits(cs)) && IsDigits(fs) && NormalText(ms)
    ensures NormalText(cs + "d" + fs + ms)
  {
    NormalConcat(cs, "d");
    NormalConcat(cs + "d", fs);
    NormalConcat(cs + "d" + fs, ms);
  }

  lemma ReadPattern(count: nat, faces: nat, m: int)
    requires count >= 1
    ensures var text := NatToString(count) + "d" + NatToString(faces) + ModifierText(m);
      NormalText(text) && Read(text) == Some(Dice(count, faces, m))
  {
    var cs, fs, ms := NatToString(count), NatToString(faces), ModifierText(m);
    var text := cs + "d" + fs + ms;
    ModifierTextShape(m);
    PatternTextNormal(cs, fs, ms);
    assert !IsDigits(text) by { assert text[|cs|] == 'd'; }
    ModifierRoundTrip(m);
    ReadPatternParts(cs, fs, ms, m);
    NatToStringRoundTrip(count);
    NatToStringRoundTrip(faces);
  }

  /** Writing a pattern out in lower case and reading it back gives the same
      count, faces and modifier. */
  lemma PatternRoundTrip(count: nat, faces: nat, m: int)
    requires count >= 1
    ensures Parse(NatToString(count) + "d" + NatToString(faces) + ModifierText(m)) == Success(Dice(count, faces, m))
  {
    ReadPattern(count, faces, m);
    ParseNormalText(NatToString(count) + "d" + NatToString(faces) + ModifierText(m));
  }

  lemma ReadDefaultCount(faces: nat, m: int)
    ensures var text := "d" + NatToString(faces) + ModifierText(m);
      NormalText(text) && Read(text) == Some(Dice(1, faces, m))
  {
    var fs, ms := NatToString(faces), ModifierText(m);
    var text := "d" + fs + ms;
    assert [] + "d" + fs + ms == text;
    ModifierTextShape(m);
    PatternTextNormal([], fs, ms);
    assert !IsDigits(text) by { assert text[0] == 'd'; }
    ModifierRoundTrip(m);
    ReadPatternParts([], fs, ms, m);
    NatToStringRoundTrip(faces);
  }

  /** The count may be left out, in which case it is one. */
  lemma DefaultCountRoundTrip(faces: nat, m: int)
    ensures Parse("d" + NatToString(faces) + ModifierText(m)) == Success(Dice(1, faces, m))
  {
    ReadDefaultCount(faces, m);
    ParseNormalText("d" + NatToString(faces) + ModifierText(m));
  }

  lemma ReadIntText(n: int)
    ensures NormalText(IntToString(n))
    ensures n >= 0 ==> Read(IntToString(n)) == Some(Literal(n))
    ensures n < 0 ==> Read(IntToString(n)) == None
  {
    var text := IntToString(n);
    if n >= 0 {
      NatToStringRoundTrip(n);
    } else {
      assert !IsDigits(text) by { assert text[0] == '-'; }
      assert LeadingDigitCount(text) == 0;
    }
  }

  /** `from_value(n)` for an int `n >= 0` always rolls `n` and draws nothing;
      for a negative `n` the text "-n" is refused. */
  lemma FromIntRolls(n: int, source: nat -> nat, p: nat)
    ensures n >= 0 ==> DiceExpression.FromInt(n).Eval(source, p) == Success((n, p))
    ensures n < 0 ==> DiceExpression.FromInt(n).Eval(source, p) == Failure(UnsupportedExpression(IntToString(n)))
  {
    ReadIntText(n);
    ParseNormalText(IntToString(n));
  }

  /** The empty text and a text of nothing but whitespace are refused. */
  lemma EmptyRefused(w: string)
    requires AllSpace(w)
    ensures Parse(w) == Failure(UnsupportedExpression(w))
  {
    TrimLeftOfBlank(w);
  }
}
