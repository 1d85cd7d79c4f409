/** The frame record both calculators produce (`ScoreFrameDTO`) and its
    debugging text (`ToString`).  `Read` parses that text back; the round
    trip `ReadToString` shows the text keeps every field the controller and
    the renderer look at. */
module Core {
  import opened Wrappers
  import opened Decimal

  /** Normal frames are 1..N-1, the Final frame is N. */
  datatype FrameType = Normal | Final

  /** `ScoreFrameDTO`: `CurrentFrameScore` is `int?` and `ErrorMessage` is
      `string?`, both absent until set. */
  datatype ScoreFrame = ScoreFrame(
    number: int,
    kind: FrameType,
    rolls: seq<int>,
    score: Option<int>,
    error: Option<string>)

  /** `new ScoreFrameDTO { FrameNumber = number }`: every other property keeps
      its initialiser (`Type = Normal`, an empty `Rolls` list, null score and
      message). */
  function NewFrame(number: int): ScoreFrame
  {
    ScoreFrame(number, Normal, [], None, None)
  }

  /** `!string.IsNullOrEmpty(ErrorMessage)`: the test both controllers use. */
  predicate HasError(f: ScoreFrame)
  {
    f.error.Some? && f.error.value != ""
  }

  /** `string.Join(",", Rolls)`. */
  function RollsText(rolls: seq<int>): string
  {
    if |rolls| == 0 then ""
    else if |rolls| == 1 then IntToString(rolls[0])
    else IntToString(rolls[0]) + "," + RollsText(rolls[1..])
  }

  function ScoreText(score: Option<int>): string
  {
    match score
    case Some(v) => IntToString(v)
    case None => "null"
  }

  function KindText(kind: FrameType): string
  {
    if kind == Final then "Final" else "Normal"
  }

  function StatusText(f: ScoreFrame): string
  {
    if HasError(f) then "Error(" + f.error.value + ")" else "Valid"
  }

  /** `ScoreFrameDTO.ToString()`:
      `F{FrameNumber:00} [{type}] Rolls:[{rolls}] Score:{score} ({status})`. */
  function ToString(f: ScoreFrame): string
  {
    "F" + IntToString00(f.number) + " " + KindPart(f)
  }

  function KindPart(f: ScoreFrame): string
  {
    "[" + KindText(f.kind) + "]" + RollsPart(f)
  }

  function RollsPart(f: ScoreFrame): string
  {
    " Rolls:[" + RollsText(f.rolls) + "]" + ScorePart(f)
  }

  function ScorePart(f: ScoreFrame): string
  {
    " Score:" + ScoreText(f.score) + " " + StatusPart(f)
  }

  function StatusPart(f: ScoreFrame): string
  {
    "(" + StatusText(f) + ")"
  }

  // ---------------------------------------------------------------------
  // Reading the text back

  /** What the text of a frame shows: the error message only when
      `HasError` (a null and an empty message both print as `Valid`). */
  datatype FrameText = FrameText(
    number: int,
    kind: FrameType,
    rolls: seq<int>,
    score: Option<int>,
    error: Option<string>)

  function Shown(f: ScoreFrame): FrameText
  {
    FrameText(f.number, f.kind, f.rolls, f.score, if HasError(f) then f.error else None)
  }

  /** Splits `s` at the first `c`. */
  function SplitAt(s: string, c: char): (r: Option<(string, string)>)
    ensures r.Some? ==> s == r.value.0 + [c] + r.value.1 && c !in r.value.0
    ensures r.None? ==> c !in s
  {
    if |s| == 0 then None
    else if s[0] == c then Some(("", s[1..]))
    else match SplitAt(s[1..], c)
      case None => None
      case Some(parts) => Some(([s[0]] + parts.0, parts.1))
  }

  /** All the pieces of `s` between the separators `c`. */
  function SplitAll(s: string, c: char): (r: seq<string>)
    ensures |r| >= 1
    decreases |s|
  {
    match SplitAt(s, c)
    case None => [s]
    case Some(parts) => [parts.0] + SplitAll(parts.1, c)
  }

  /** The decimal text of each roll. */
  function Texts(rolls: seq<int>): (r: seq<string>)
    ensures |r| == |rolls|
  {
    if rolls == [] then [] else [IntToString(rolls[0])] + Texts(rolls[1..])
  }

  function ReadInts(parts: seq<string>): Option<seq<int>>
  {
    if parts == [] then Some([])
    else match (ParseInt(parts[0]), ReadInts(parts[1..]))
      case (Some(v), Some(vs)) => Some([v] + vs)
      case _ => None
  }

  function ReadRolls(s: string): Option<seq<int>>
  {
    if s == "" then Some([]) else ReadInts(SplitAll(s, ','))
  }

  function ReadKind(s: string): Option<FrameType>
  {
    if s == "Final" then Some(Final) else if s == "Normal" then Some(Normal) else None
  }

  function ReadScore(s: string): Option<Option<int>>
  {
    if s == "null" then Some(None)
    else match ParseInt(s)
      case Some(v) => Some(Some(v))
      case None => None
  }

  function ReadStatus(s: string): Option<Option<string>>
  {
    if s == "Valid" then Some(None)
    else if |s| >= 7 && s[..6] == "Error(" && s[|s| - 1] == ')' then Some(Some(s[6..|s| - 1]))
    else None
  }

  /** Parses the text `ToString` prints, one field after the other. */
  function Read(s: string): Option<FrameText>
  {
    if |s| == 0 || s[0] != 'F' then None else ReadNumber(s[1..])
  }

  function ReadNumber(s: string): Option<FrameText>
  {
    match SplitAt(s, ' ')
    case None => None
    case Some(p) =>
      match ParseInt(p.0)
      case None => None
      case Some(n) => ReadKindField(n, p.1)
  }

  function ReadKindField(n: int, s: string): Option<FrameText>
  {
    if |s| == 0 || s[0] != '[' then None
    else match SplitAt(s[1..], ']')
      case None => None
      case Some(p) =>
        match ReadKind(p.0)
        case None => None
        case Some(k) => ReadRollsField(n, k, p.1)
  }

  function ReadRollsField(n: int, k: FrameType, s: string): Option<FrameText>
  {
    if |s| < 8 || s[..8] != " Rolls:[" then None
    else match SplitAt(s[8..], ']')
      case None => None
      case Some(p) =>
        match ReadRolls(p.0)
        case None => None
        case Some(rs) => ReadScoreField(n, k, rs, p.1)
  }

  function ReadScoreField(n: int, k: FrameType, rs: seq<int>, s: string): Option<FrameText>
  {
    if |s| < 7 || s[..7] != " Score:" then None
    else match SplitAt(s[7..], ' ')
      case None => None
      case Some(p) =>
        match ReadScore(p.0)
        case None => None
        case Some(sc) => ReadStatusField(n, k, rs, sc, p.1)
  }

  function ReadStatusField(n: int, k: FrameType, rs: seq<int>, sc: Option<int>, s: string): Option<FrameText>
  {
    if |s| < 2 || s[0] != '(' || s[|s| - 1] != ')' then None
    else match ReadStatus(s[1..|s| - 1])
      case None => None
      case Some(st) => Some(FrameText(n, k, rs, sc, st))
  }

  // ---------------------------------------------------------------------
  // Properties of the text

  /** The text of a frame names its type: `[Final]` exactly for the Final frame. */
  lemma KindTextNamesKind(k: FrameType)
    ensures ReadKind(KindText(k)) == Some(k)
    ensures KindText(k) == "Final" <==> k == Final
  {
  }

  /** The score prints as its digits when present and as `null` when absent. */
  lemma ScoreTextRoundTrip(score: Option<int>)
    ensures ReadScore(ScoreText(score)) == Some(score)
    ensures score.None? <==> ScoreText(score) == "null"
  {
    if score.Some? {
      IntToStringRoundTrip(score.value);
      assert ScoreText(score)[0] == '-' || IsDigit(ScoreText(score)[0]);
    }
  }

  /** The status prints as `Valid` exactly when there is no (non-empty) error. */
  lemma StatusTextRoundTrip(f: ScoreFrame)
    ensures ReadStatus(StatusText(f)) == Some(Shown(f).error)
    ensures StatusText(f) == "Valid" <==> !HasError(f)
  {
    if HasError(f) {
      var s := StatusText(f);
      assert s[..6] == "Error(";
      assert s[6..|s| - 1] == f.error.value;
    }
  }

  predicate NumericText(s: string)
  {
    forall i :: 0 <= i < |s| ==> IsDigit(s[i]) || s[i] == '-'
  }

  lemma IntTextIsNumeric(i: int)
    ensures NumericText(IntToString(i)) && NumericText(IntToString00(i))
  {
    var n: nat := if i < 0 then -i else i;
    assert AllDigits(NatToString(n));
    assert AllDigits(PadTwo(NatToString(n)));
  }

  lemma {:induction false} SplitAtFirst(a: string, b: string, c: char)
    requires c !in a
    ensures SplitAt(a + [c] + b, c) == Some((a, b))
  {
    var s := a + [c] + b;
    if a == [] {
      assert s[0] == c && s[1..] == b;
    } else {
      assert s[0] == a[0] != c;
      assert s[1..] == a[1..] + [c] + b;
      SplitAtFirst(a[1..], b, c);
      assert [a[0]] + a[1..] == a;
    }
  }

  lemma {:induction false} RollsTextPieces(rolls: seq<int>)
    requires rolls != []
    ensures SplitAll(RollsText(rolls), ',') == Texts(rolls)
    decreases |rolls|
  {
    var head := IntToString(rolls[0]);
    IntTextIsNumeric(rolls[0]);
    assert ',' !in head;
    if |rolls| == 1 {
      assert RollsText(rolls) == head;
      assert SplitAt(head, ',') == None;
    } else {
      assert RollsText(rolls) == head + [','] + RollsText(rolls[1..]);
      SplitAtFirst(head, RollsText(rolls[1..]), ',');
      RollsTextPieces(rolls[1..]);
    }
  }

  lemma {:induction false} ReadIntsOfTexts(rolls: seq<int>)
    ensures ReadInts(Texts(rolls)) == Some(rolls)
    decreases |rolls|
  {
    if rolls != [] {
      IntToStringRoundTrip(rolls[0]);
      ReadIntsOfTexts(rolls[1..]);
      assert Texts(rolls)[0] == IntToString(rolls[0]);
      assert Texts(rolls)[1..] == Texts(rolls[1..]);
      assert [rolls[0]] + rolls[1..] == rolls;
    }
  }

  /** `string.Join(",", Rolls)` read back gives the rolls. */
  lemma RollsTextRoundTrip(rolls: seq<int>)
    ensures ReadRolls(RollsText(rolls)) == Some(rolls)
    ensures ']' !in RollsText(rolls)
  {
    RollsTextNoBracket(rolls);
    if rolls != [] {
      IntTextIsNumeric(rolls[0]);
      assert RollsText(rolls) != "";
      RollsTextPieces(rolls);
      ReadIntsOfTexts(rolls);
    }
  }

  lemma {:induction false} RollsTextNoBracket(rolls: seq<int>)
    ensures ']' !in RollsText(rolls)
    decreases |rolls|
  {
    if rolls != [] {
      IntTextIsNumeric(rolls[0]);
      RollsTextNoBracket(rolls[1..]);
    }
  }

  lemma StatusFieldRoundTrip(f: ScoreFrame)
    ensures ReadStatusField(f.number, f.kind, f.rolls, f.score, StatusPart(f)) == Some(Shown(f))
  {
    var r := StatusPart(f);
    assert r[1..|r| - 1] == StatusText(f);
    StatusTextRoundTrip(f);
  }

  /** A field behind a fixed tag and before a separator it does not hold. */
  lemma TagSplit(tag: string, a: string, c: char, b: string)
    requires c !in a
    ensures var r := tag + a + [c] + b;
      |r| >= |tag| && r[..|tag|] == tag && SplitAt(r[|tag|..], c) == Some((a, b))
  {
    var r := tag + a + [c] + b;
    assert r == tag + (a + [c] + b);
    assert r[..|tag|] == tag;
    assert r[|tag|..] == a + [c] + b;
    SplitAtFirst(a, b, c);
  }

  lemma ScorePartSplit(f: ScoreFrame)
    ensures var r := ScorePart(f);
      |r| >= 7 && r[..7] == " Score:" && SplitAt(r[7..], ' ') == Some((ScoreText(f.score), StatusPart(f)))
  {
    var score := ScoreText(f.score);
    IntTextIsNumeric(f.score.GetOr(0));
    assert ' ' !in score;
    TagSplit(" Score:", score, ' ', StatusPart(f));
  }

  lemma ScoreFieldRoundTrip(f: ScoreFrame)
    ensures ReadScoreField(f.number, f.kind, f.rolls, ScorePart(f)) == Some(Shown(f))
  {
    ScorePartSplit(f);
    ScoreTextRoundTrip(f.score);
    StatusFieldRoundTrip(f);
  }

  lemma RollsPartSplit(f: ScoreFrame)
    ensures var r := RollsPart(f);
      |r| >= 8 && r[..8] == " Rolls:[" && SplitAt(r[8..], ']') == Some((RollsText(f.rolls), ScorePart(f)))
  {
    var rolls := RollsText(f.rolls);
    RollsTextNoBracket(f.rolls);
    TagSplit(" Rolls:[", rolls, ']', ScorePart(f));
  }

  /** `ReadRollsField` on a text whose pieces are known. */
  lemma ReadRollsFieldOf(n: int, k: FrameType, s: string, rolls: string, rest: string, rs: seq<int>)
    requires |s| >= 8 && s[..8] == " Rolls:[" && SplitAt(s[8..], ']') == Some((rolls, rest))
    requires ReadRolls(rolls) == Some(rs)
    ensures ReadRollsField(n, k, s) == ReadScoreField(n, k, rs, rest)
  {
  }

  lemma RollsFieldRoundTrip(f: ScoreFrame)
    ensures ReadRollsField(f.number, f.kind, RollsPart(f)) == Some(Shown(f))
  {
    RollsPartSplit(f);
    RollsTextRoundTrip(f.rolls);
    ScoreFieldRoundTrip(f);
    ReadRollsFieldOf(f.number, f.kind, RollsPart(f), RollsText(f.rolls), ScorePart(f), f.rolls);
  }

  lemma KindFieldRoundTrip(f: ScoreFrame)
    ensures ReadKindField(f.number, KindPart(f)) == Some(Shown(f))
  {
    var kind := KindText(f.kind);
    var r := KindPart(f);
    assert SplitAt(r[1..], ']') == Some((kind, RollsPart(f))) by {
      assert ']' !in kind;
      assert r[1..] == kind + [']'] + RollsPart(f);
      SplitAtFirst(kind, RollsPart(f), ']');
    }
    KindTextNamesKind(f.kind);
    RollsFieldRoundTrip(f);
  }

  lemma NumberSplit(f: ScoreFrame)
    ensures var r := ToString(f);
      |r| >= 1 && r[..1] == "F" && SplitAt(r[1..], ' ') == Some((IntToString00(f.number), KindPart(f)))
  {
    var num := IntToString00(f.number);
    IntTextIsNumeric(f.number);
    assert ' ' !in num;
    TagSplit("F", num, ' ', KindPart(f));
  }

  /** `Read` on a text whose pieces are known. */
  lemma ReadOf(s: string, number: string, rest: string, n: int)
    requires |s| >= 1 && s[..1] == "F" && SplitAt(s[1..], ' ') == Some((number, rest))
    requires ParseInt(number) == Some(n)
    ensures Read(s) == ReadKindField(n, rest)
  {
    assert s[0] == s[..1][0];
  }

  /** Every field the text shows can be read back from it. */
  lemma ReadToString(f: ScoreFrame)
    ensures Read(ToString(f)) == Some(Shown(f))
  {
    NumberSplit(f);
    IntToString00RoundTrip(f.number);
    KindFieldRoundTrip(f);
    ReadOf(ToString(f), IntToString00(f.number), KindPart(f), f.number);
  }
}
