/** `get_metadata` (osf_pigeon/pigeon.py:71-90): the archive item's
    metadata derived from the registration's attributes, with the creation
    timestamp parsed by `datetime.strptime(s, "%Y-%m-%dT%H:%M:%S")` and
    printed back by `strftime("%Y-%m-%d")`. */
module Metadata {
  import opened Common

  /** The attributes `get_metadata` reads from `registration.json`. */
  datatype NodeAttributes = NodeAttributes(title: Json, description: Json, dateCreated: string, articleDoi: Option<string>)

  datatype DateTime = DateTime(year: int, month: int, day: int, hour: int, minute: int, second: int)

  /** `s.partition('.')[0]`: the text before the first '.', or all of it. */
  function BeforeFirstDot(s: string): (t: string)
    ensures IsPrefix(t, s)
    ensures forall i :: 0 <= i < |t| ==> t[i] != '.'
    ensures |t| < |s| ==> s[|t|] == '.'
  {
    if s == [] || s[0] == '.' then [] else [s[0]] + BeforeFirstDot(s[1..])
  }

  /** Split at the first character equal to `a` or `b`: the text before it
      and the text after it. */
  function Until(s: string, a: char, b: char): (r: Option<(string, string)>)
    ensures r.Some? ==> |r.value.0| < |s|
  {
    if s == [] then None
    else if s[0] == a || s[0] == b then Some(([], s[1..]))
    else
      match Until(s[1..], a, b)
      case None => None
      case Some(parts) => Some(([s[0]] + parts.0, parts.1))
  }

  lemma {:induction false} UntilAt(s: string, a: char, b: char, i: nat)
    requires i < |s| && (s[i] == a || s[i] == b)
    requires forall j :: 0 <= j < i ==> s[j] != a && s[j] != b
    ensures Until(s, a, b) == Some((s[..i], s[i + 1..]))
  {
    if i > 0 {
      UntilAt(s[1..], a, b, i - 1);
      assert [s[0]] + s[1..][..i - 1] == s[..i];
    }
  }

  /** A field of one or two decimal digits (`%m`, `%H`, `%M`, `%S`),
      within the range its pattern admits. */
  function Field(tok: string, lo: int, hi: int): (r: Option<int>)
    ensures r.Some? ==> lo <= r.value <= hi
  {
    if 1 <= |tok| <= 2 && AllDigits(tok) && lo <= DigitsValue(tok) <= hi then Some(DigitsValue(tok) as int) else None
  }

  /** `%d` also admits a space followed by a non-zero digit. */
  function DayField(tok: string): (r: Option<int>)
    ensures r.Some? ==> 1 <= r.value <= 31
  {
    if |tok| == 2 && tok[0] == ' ' && IsDigit(tok[1]) && tok[1] != '0' then Some(DigitValue(tok[1]) as int)
    else Field(tok, 1, 31)
  }

  predicate IsLeapYear(y: int) {
    y % 4 == 0 && (y % 100 != 0 || y % 400 == 0)
  }

  function DaysInMonth(y: int, m: int): int {
    if m == 2 then (if IsLeapYear(y) then 29 else 28)
    else if m == 4 || m == 6 || m == 9 || m == 11 then 30
    else 31
  }

  /** The six fields of `"%Y-%m-%dT%H:%M:%S"`, as matched text. */
  datatype Tokens = Tokens(year: string, month: string, day: string, hour: string, minute: string, second: string)

  /** Split a timestamp at its separators: four characters of year and '-',
      then each later field up to its separator (the 'T' in either case). */
  function Tokenize(s: string): (r: Option<Tokens>)
    ensures r.Some? ==> |r.value.year| == 4
  {
    if |s| < 5 || s[4] != '-' then None
    else
      match Until(s[5..], '-', '-')
      case None => None
      case Some(afterYear) =>
        match Until(afterYear.1, 'T', 't')
        case None => None
        case Some(afterMonth) =>
          match Until(afterMonth.1, ':', ':')
          case None => None
          case Some(afterDay) =>
            match Until(afterDay.1, ':', ':')
            case None => None
            case Some(afterHour) =>
              Some(Tokens(s[..4], afterYear.0, afterMonth.0, afterDay.0, afterHour.0, afterHour.1))
  }

  /** The field ranges of the pattern, then the checks of the datetime
      constructor. */
  function Convert(t: Tokens): (r: Result<DateTime>)
    requires |t.year| == 4
    ensures r.Err? ==> r.error == ValueError
    ensures r.Ok? ==> var d := r.value;
      && 1 <= d.year <= 9999 && 1 <= d.month <= 12 && 1 <= d.day <= DaysInMonth(d.year, d.month)
      && 0 <= d.hour <= 23 && 0 <= d.minute <= 59 && 0 <= d.second <= 59
  {
    if !AllDigits(t.year) then Err(ValueError)
    else
      DigitsValueBound(t.year);
      var year := DigitsValue(t.year) as int;
      var month := Field(t.month, 1, 12);
      var day := DayField(t.day);
      var hour := Field(t.hour, 0, 23);
      var minute := Field(t.minute, 0, 59);
      var second := Field(t.second, 0, 61);
      if month.None? || day.None? || hour.None? || minute.None? || second.None? then Err(ValueError)
      else if year < 1 || day.value > DaysInMonth(year, month.value) || second.value > 59 then Err(ValueError)
      else Ok(DateTime(year, month.value, day.value, hour.value, minute.value, second.value))
  }

  /** `datetime.strptime(s, "%Y-%m-%dT%H:%M:%S")`: the pattern matched
      case-insensitively against the whole text, then the checks of the
      datetime constructor (year 1..9999, day within its month, second
      below 60); ValueError otherwise. */
  function ParseTimestamp(s: string): (r: Result<DateTime>)
    ensures r.Err? ==> r.error == ValueError
    ensures r.Ok? ==> var d := r.value;
      && 1 <= d.year <= 9999 && 1 <= d.month <= 12 && 1 <= d.day <= DaysInMonth(d.year, d.month)
      && 0 <= d.hour <= 23 && 0 <= d.minute <= 59 && 0 <= d.second <= 59
  {
    match Tokenize(s)
    case None => Err(ValueError)
    case Some(t) => Convert(t)
  }

  /** The last `width` decimal digits of n, zero-padded. */
  function PadDigits(n: nat, width: nat): (s: string)
    ensures |s| == width && AllDigits(s)
  {
    if width == 0 then [] else PadDigits(n / 10, width - 1) + [DigitChar(n % 10)]
  }

  /** `strftime("%Y-%m-%d")`. */
  function FormatDate(d: DateTime): string
    requires 1 <= d.year <= 9999 && 1 <= d.month <= 12 && 1 <= d.day <= 31
  {
    PadDigits(d.year, 4) + "-" + PadDigits(d.month, 2) + "-" + PadDigits(d.day, 2)
  }

  /** `get_metadata` on the registration's attributes. */
  function GetMetadata(node: NodeAttributes): (r: Result<map<string, Json>>)
    ensures r.Ok? <==> ParseTimestamp(BeforeFirstDot(node.dateCreated)).Ok?
    ensures r.Err? ==> r.error == ValueError
    ensures r.Ok? ==>
      r.value.Keys == {"title", "description", "date", "contributor"} +
        (if node.articleDoi.Some? && node.articleDoi.value != "" then {"external-identifier"} else {})
    ensures r.Ok? ==> r.value["title"] == node.title && r.value["description"] == node.description
    ensures r.Ok? ==> r.value["contributor"] == JStr("Center for Open Science")
    ensures r.Ok? ==> r.value["date"] == JStr(FormatDate(ParseTimestamp(BeforeFirstDot(node.dateCreated)).value))
    ensures r.Ok? && node.articleDoi.Some? && node.articleDoi.value != "" ==>
      r.value["external-identifier"] == JStr("urn:doi:" + node.articleDoi.value)
  {
    var dateTime :- ParseTimestamp(BeforeFirstDot(node.dateCreated));
    var metadata := map[
      "title" := node.title,
      "description" := node.description,
      "date" := JStr(FormatDate(dateTime)),
      "contributor" := JStr("Center for Open Science")
    ];
    if node.articleDoi.Some? && node.articleDoi.value != "" then
      Ok(metadata["external-identifier" := JStr("urn:doi:" + node.articleDoi.value)])
    else
      Ok(metadata)
  }

  /** Padding a number read from `width` digits gives those digits back. */
  lemma {:induction false} PadDigitsValue(t: string)
    requires AllDigits(t)
    ensures PadDigits(DigitsValue(t), |t|) == t
  {
    if t != [] {
      var init := t[..|t| - 1];
      var n := DigitsValue(t);
      assert n / 10 == DigitsValue(init) && n % 10 == DigitValue(t[|t| - 1]);
      PadDigitsValue(init);
      assert t == init + [t[|t| - 1]];
    }
  }

  /** A zero-padded `YYYY-MM-DDTHH:MM:SS` timestamp denoting a real date
      and time. */
  predicate ZeroPadded(s: string) {
    && |s| == 19
    && s[4] == '-' && s[7] == '-' && s[10] == 'T' && s[13] == ':' && s[16] == ':'
    && (forall i :: 0 <= i < 19 && i !in {4, 7, 10, 13, 16} ==> IsDigit(s[i]))
    && var year := DigitsValue(s[..4]) as int;
       var month := DigitsValue(s[5..7]) as int;
       var day := DigitsValue(s[8..10]) as int;
       && 1 <= year && 1 <= month <= 12 && 1 <= day <= DaysInMonth(year, month)
       && DigitsValue(s[11..13]) <= 23 && DigitsValue(s[14..16]) <= 59 && DigitsValue(s[17..19]) <= 59
  }

  lemma TwoDigitField(t: string, lo: int, hi: int)
    requires |t| == 2 && IsDigit(t[0]) && IsDigit(t[1]) && lo <= DigitsValue(t) <= hi
    ensures Field(t, lo, hi) == Some(DigitsValue(t) as int)
  {
  }

  /** Two characters other than `a` and `b` at `i`, then one of them. */
  lemma UntilTwo(s: string, i: nat, a: char, b: char)
    requires i + 2 < |s| && (s[i + 2] == a || s[i + 2] == b)
    requires s[i] != a && s[i] != b && s[i + 1] != a && s[i + 1] != b
    ensures Until(s[i..], a, b) == Some((s[i..i + 2], s[i + 3..]))
  {
    UntilAt(s[i..], a, b, 2);
    assert s[i..][..2] == s[i..i + 2] && s[i..][3..] == s[i + 3..];
  }

  /** Such a timestamp splits at its five separators. */
  lemma TokenizeZeroPadded(s: string)
    requires ZeroPadded(s)
    ensures Tokenize(s) == Some(Tokens(s[..4], s[5..7], s[8..10], s[11..13], s[14..16], s[17..19]))
  {
    assert IsDigit(s[5]) && IsDigit(s[6]) && IsDigit(s[8]) && IsDigit(s[9]);
    assert IsDigit(s[11]) && IsDigit(s[12]) && IsDigit(s[14]) && IsDigit(s[15]);
    UntilTwo(s, 5, '-', '-');
    UntilTwo(s, 8, 'T', 't');
    UntilTwo(s, 11, ':', ':');
    UntilTwo(s, 14, ':', ':');
    assert s[17..] == s[17..19];
  }

  /** The fields of such a timestamp are runs of digits. */
  lemma ZeroPaddedDigits(s: string)
    requires ZeroPadded(s)
    ensures AllDigits(s[..4]) && AllDigits(s[5..7]) && AllDigits(s[8..10])
    ensures AllDigits(s[11..13]) && AllDigits(s[14..16]) && AllDigits(s[17..19])
  {
    assert AllDigits(s[..4]) by {
      forall i | 0 <= i < 4 ensures IsDigit(s[..4][i]) { assert s[..4][i] == s[i]; }
    }
    assert IsDigit(s[5]) && IsDigit(s[6]) && IsDigit(s[8]) && IsDigit(s[9]);
    assert IsDigit(s[11]) && IsDigit(s[12]) && IsDigit(s[14]) && IsDigit(s[15]) && IsDigit(s[17]) && IsDigit(s[18]);
  }

  /** Fields of four and two digits within their ranges convert to the
      date and time they spell. */
  lemma ConvertDigits(t: Tokens)
    requires |t.year| == 4 && |t.month| == 2 && |t.day| == 2 && |t.hour| == 2 && |t.minute| == 2 && |t.second| == 2
    requires AllDigits(t.year) && AllDigits(t.month) && AllDigits(t.day)
    requires AllDigits(t.hour) && AllDigits(t.minute) && AllDigits(t.second)
    requires var year, month := DigitsValue(t.year) as int, DigitsValue(t.month) as int;
      1 <= year && 1 <= month <= 12 && 1 <= DigitsValue(t.day) <= DaysInMonth(year, month)
    requires DigitsValue(t.hour) <= 23 && DigitsValue(t.minute) <= 59 && DigitsValue(t.second) <= 59
    ensures Convert(t) == Ok(DateTime(DigitsValue(t.year), DigitsValue(t.month), DigitsValue(t.day),
                                      DigitsValue(t.hour), DigitsValue(t.minute), DigitsValue(t.second)))
  {
    TwoDigitField(t.month, 1, 12);
    TwoDigitField(t.day, 1, 31);
    TwoDigitField(t.hour, 0, 23);
    TwoDigitField(t.minute, 0, 59);
    TwoDigitField(t.second, 0, 61);
    assert t.day[0] != ' ';
  }

  /** Such a timestamp parses into the fields it spells. */
  lemma ParseZeroPadded(s: string)
    requires ZeroPadded(s)
    ensures ParseTimestamp(s) == Ok(DateTime(DigitsValue(s[..4]), DigitsValue(s[5..7]), DigitsValue(s[8..10]),
                                             DigitsValue(s[11..13]), DigitsValue(s[14..16]), DigitsValue(s[17..19])))
  {
    TokenizeZeroPadded(s);
    ZeroPaddedDigits(s);
    ConvertDigits(Tokens(s[..4], s[5..7], s[8..10], s[11..13], s[14..16], s[17..19]));
  }

  /** The text before the first '.' of a text without dots, followed by
      nothing or by a '.'. */
  lemma {:induction false} BeforeDotOfStamp(stamp: string, rest: string)
    requires forall i :: 0 <= i < |stamp| ==> stamp[i] != '.'
    requires rest == [] || rest[0] == '.'
    ensures BeforeFirstDot(stamp + rest) == stamp
  {
    if stamp != [] {
      assert (stamp + rest)[1..] == stamp[1..] + rest;
      BeforeDotOfStamp(stamp[1..], rest);
    } else {
      assert stamp + rest == rest;
    }
  }

  /** strftime prints dates read from zero-padded digits back as those digits. */
  lemma FormatDigits(y: string, m: string, d: string, hour: int, minute: int, second: int)
    requires |y| == 4 && |m| == 2 && |d| == 2 && AllDigits(y) && AllDigits(m) && AllDigits(d)
    requires 1 <= DigitsValue(y) && 1 <= DigitsValue(m) <= 12 && 1 <= DigitsValue(d) <= 31
    ensures DigitsValue(y) <= 9999
    ensures FormatDate(DateTime(DigitsValue(y), DigitsValue(m), DigitsValue(d), hour, minute, second)) == y + "-" + m + "-" + d
  {
    DigitsValueBound(y);
    PadDigitsValue(y);
    PadDigitsValue(m);
    PadDigitsValue(d);
  }

  /** strftime prints the first ten characters of such a timestamp back. */
  lemma FormatZeroPadded(s: string)
    requires ZeroPadded(s)
    ensures ParseTimestamp(s).Ok? && FormatDate(ParseTimestamp(s).value) == s[..10]
  {
    ParseZeroPadded(s);
    ZeroPaddedDigits(s);
    var y, m, d := s[..4], s[5..7], s[8..10];
    FormatDigits(y, m, d, DigitsValue(s[11..13]), DigitsValue(s[14..16]), DigitsValue(s[17..19]));
    assert s[..10] == y + "-" + m + "-" + d;
  }

  /** For a zero-padded timestamp, with or without fractional seconds,
      the `date` field is its first ten characters, `YYYY-MM-DD`. */
  lemma DateIsTimestampPrefix(node: NodeAttributes, stamp: string, fraction: string)
    requires ZeroPadded(stamp)
    requires node.dateCreated == stamp || node.dateCreated == stamp + "." + fraction
    ensures GetMetadata(node).Ok?
    ensures GetMetadata(node).value["date"] == JStr(stamp[..10])
  {
    var rest := node.dateCreated[|stamp|..];
    assert node.dateCreated == stamp + rest;
    BeforeDotOfStamp(stamp, rest);
    FormatZeroPadded(stamp);
  }

  /** The archive item gets an `external-identifier` exactly when the
      registration has a non-empty article DOI. */
  lemma ExternalIdentifierIffArticleDoi(node: NodeAttributes)
    requires GetMetadata(node).Ok?
    ensures "external-identifier" in GetMetadata(node).value <==> node.articleDoi.Some? && node.articleDoi.value != ""
  {
  }
}
