/**
 The client's relative time formatter `timeAgo` (public/app.js). The elapsed
 time is cut to whole seconds with `Math.floor`; then the units years,
 months, days, hours and minutes are tried in that order, and the first
 whose quotient `seconds / unit` is strictly greater than 1 is printed as
 `Math.floor(seconds / unit)` followed by the unit's label. Everything up to
 a minute, including times in the future, is "just now".

 The clock is a parameter: `nowMs` stands for `new Date()`.
 */
module TimeAgo {
  import opened Seqs
  import opened Model
  import opened Translation

  datatype Unit = Years | Months | Days | Hours | Minutes

  function UnitSeconds(u: Unit): int
  {
    match u
    case Years => 31536000
    case Months => 2592000
    case Days => 86400
    case Hours => 3600
    case Minutes => 60
  }

  /** Position of the unit in the order the checks are made. */
  function Rank(u: Unit): nat
  {
    match u
    case Years => 0
    case Months => 1
    case Days => 2
    case Hours => 3
    case Minutes => 4
  }

  /** The translation key of the unit's label. */
  function UnitKey(u: Unit): string
  {
    match u
    case Years => "yearsAgo"
    case Months => "monthsAgo"
    case Days => "daysAgo"
    case Hours => "hoursAgo"
    case Minutes => "minutesAgo"
  }

  datatype Age = JustNow | Ago(count: int, unit: Unit)

  /** `Math.floor((now - date) / 1000)`. */
  function ElapsedSeconds(nowMs: int, dateMs: int): (s: int)
    ensures s * 1000 <= nowMs - dateMs < s * 1000 + 1000
  {
    (nowMs - dateMs) / 1000
  }

  /** `seconds / unit > 1` on reals, written on integers. */
  predicate Exceeds(seconds: int, u: Unit)
  {
    seconds > UnitSeconds(u)
  }

  /** The unit chosen by `timeAgo` and the count it prints. */
  function AgeOf(seconds: int): (a: Age)
    ensures a.JustNow? <==> seconds <= 60
    ensures a.Ago? ==> Exceeds(seconds, a.unit) && a.count == seconds / UnitSeconds(a.unit) >= 1
    ensures a.Ago? ==> forall u :: Rank(u) < Rank(a.unit) ==> !Exceeds(seconds, u)
  {
    if Exceeds(seconds, Years) then Ago(seconds / UnitSeconds(Years), Years)
    else if Exceeds(seconds, Months) then Ago(seconds / UnitSeconds(Months), Months)
    else if Exceeds(seconds, Days) then Ago(seconds / UnitSeconds(Days), Days)
    else if Exceeds(seconds, Hours) then Ago(seconds / UnitSeconds(Hours), Hours)
    else if Exceeds(seconds, Minutes) then Ago(seconds / UnitSeconds(Minutes), Minutes)
    else JustNow
  }

  /** Below years the count never reaches the next unit up: at most 12
      months, 30 days, 24 hours or 60 minutes. */
  lemma AgeCountBounds(seconds: int)
    ensures var a := AgeOf(seconds);
            && (a.Ago? && a.unit == Months ==> a.count <= 12)
            && (a.Ago? && a.unit == Days ==> a.count <= 30)
            && (a.Ago? && a.unit == Hours ==> a.count <= 24)
            && (a.Ago? && a.unit == Minutes ==> a.count <= 60)
  {
  }

  /** How fine the shown unit is: "just now" is the finest. */
  function Fineness(a: Age): nat
  {
    if a.JustNow? then 5 else Rank(a.unit)
  }

  lemma DivMonotone(x: int, y: int, u: Unit)
    requires x <= y
    ensures x / UnitSeconds(u) <= y / UnitSeconds(u)
  {
    match u
    case Years =>
    case Months =>
    case Days =>
    case Hours =>
    case Minutes =>
  }

  /** An older commit never shows a finer unit, and with the same unit it
      never shows a smaller count. */
  lemma AgeMonotone(s1: int, s2: int)
    requires s1 <= s2
    ensures Fineness(AgeOf(s2)) <= Fineness(AgeOf(s1))
    ensures AgeOf(s1).Ago? && AgeOf(s2).Ago? && AgeOf(s1).unit == AgeOf(s2).unit ==>
              AgeOf(s1).count <= AgeOf(s2).count
  {
    var a1, a2 := AgeOf(s1), AgeOf(s2);
    if a1.Ago? && a2.Ago? {
      if Rank(a1.unit) < Rank(a2.unit) {
        assert Exceeds(s2, a1.unit);
        assert false;
      }
      if a1.unit == a2.unit {
        DivMonotone(s1, s2, a1.unit);
      }
    }
  }

  /** A date in the future is shown as "just now". */
  lemma FutureIsJustNow(nowMs: int, dateMs: int)
    requires dateMs >= nowMs
    ensures AgeOf(ElapsedSeconds(nowMs, dateMs)) == JustNow
  {
  }

  /** `timeAgo(date)` rendered in language `lang`; `None` when `t` throws
      because the language has no table. */
  function TimeAgoText(lang: string, nowMs: int, dateMs: int): (r: Option<string>)
    ensures r.None? <==> lang !in Translations()
  {
    match AgeOf(ElapsedSeconds(nowMs, dateMs))
    case JustNow => Translate(lang, "justNow", [])
    case Ago(n, u) =>
      match Translate(lang, UnitKey(u), [])
      case None => None
      case Some(word) => Some(NatToString(n) + " " + word)
  }

  /** In every language `timeAgo` prints the chosen unit's label from that
      language's table after the count and a space, and the table's
      "justNow" entry for the last minute: every table has a non-empty
      entry for each of them, so the `|| key` fallback of `t` never applies. */
  lemma TimeAgoRendered(lang: string, nowMs: int, dateMs: int)
    requires lang in Translations()
    ensures var table := Translations()[lang];
            && "justNow" in table && table["justNow"] != ""
            && (forall u :: UnitKey(u) in table && table[UnitKey(u)] != "")
            && match AgeOf(ElapsedSeconds(nowMs, dateMs))
               case JustNow => TimeAgoText(lang, nowMs, dateMs) == Some(table["justNow"])
               case Ago(n, u) => TimeAgoText(lang, nowMs, dateMs) == Some(NatToString(n) + " " + table[UnitKey(u)])
  {
    var table := Translations()[lang];
    forall u
      ensures UnitKey(u) in table && table[UnitKey(u)] != ""
    {
      if lang == "TR" {
        assert UnitKey(u) in TurkishTable();
      } else {
        assert UnitKey(u) in EnglishTable();
      }
    }
  }

  lemma TurkishLabels()
    ensures "TR" in Translations()
    ensures forall u :: UnitKey(u) in Translations()["TR"] && Translations()["TR"][UnitKey(u)] != ""
    ensures Translations()["TR"]["daysAgo"] == "gün önce"
    ensures Translations()["TR"]["justNow"] == "az önce"
  {
  }

  /** In Turkish, a commit more than a day and at most 30 days old, `d`
      whole days ago, reads "`d` gün önce", and one from the last minute "az önce". */
  lemma TurkishTimeAgo(nowMs: int, dateMs: int)
    requires nowMs - dateMs >= 0
    ensures var s := ElapsedSeconds(nowMs, dateMs);
            && (s <= 60 ==> TimeAgoText("TR", nowMs, dateMs) == Some("az önce"))
            && (86400 < s <= 2592000 ==> TimeAgoText("TR", nowMs, dateMs) == Some(NatToString(s / 86400) + " gün önce"))
  {
    TurkishLabels();
    var s := ElapsedSeconds(nowMs, dateMs);
    if 86400 < s <= 2592000 {
      assert AgeOf(s) == Ago(s / 86400, Days);
      assert Translate("TR", "daysAgo", []) == Some("gün önce");
      assert NatToString(s / 86400) + " " + "gün önce" == NatToString(s / 86400) + " gün önce";
    }
  }
}
