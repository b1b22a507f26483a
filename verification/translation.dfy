/**
 The client's text helpers in public/app.js: the translation function `t`
 with its positional placeholders `{0}`, `{1}`, ..., and the decimal
 rendering of the counts it is given.

 `String.prototype.replace` with a string pattern replaces the first
 occurrence only; that is what `ReplaceFirst` does. Its `$`-patterns in the
 replacement text are not modelled: arguments are inserted literally.
 */
module Translation {
  import opened Seqs
  import opened Model

  type Table = map<string, string>

  /** The `translations` object: the TR and EN tables. */
  function Translations(): map<string, Table>
  {
    map["TR" := TurkishTable(), "EN" := EnglishTable()]
  }

  function TurkishTable(): Table
  {
    map[
      "title" := "Geliştirici Günlüğü",
      "subtitle" := "Geliştirme Geçmişi",
      "totalCommits" := "Toplam {0} commit",
      "apiBtn" := "API",
      "loading" := "Yükleniyor...",
      "errorTitle" := "Veriler yüklenemedi!",
      "retryBtn" := "Tekrar Dene",
      "noCommits" := "Henüz commit bulunmuyor.",
      "privateBadge" := "Gizli",
      "yearsAgo" := "yıl önce",
      "monthsAgo" := "ay önce",
      "daysAgo" := "gün önce",
      "hoursAgo" := "saat önce",
      "minutesAgo" := "dakika önce",
      "justNow" := "az önce",
      "loadingMore" := "Daha fazla yükleniyor...",
      "noMoreData" := "Tüm commitler yüklendi"]
  }

  function EnglishTable(): Table
  {
    map[
      "title" := "Developer Changelog",
      "subtitle" := "Development History",
      "totalCommits" := "Total {0} commits",
      "apiBtn" := "API",
      "loading" := "Loading...",
      "errorTitle" := "Failed to load data!",
      "retryBtn" := "Retry",
      "noCommits" := "No commits yet.",
      "privateBadge" := "Private",
      "yearsAgo" := "years ago",
      "monthsAgo" := "months ago",
      "daysAgo" := "days ago",
      "hoursAgo" := "hours ago",
      "minutesAgo" := "minutes ago",
      "justNow" := "just now",
      "loadingMore" := "Loading more...",
      "noMoreData" := "All commits loaded"]
  }

  // ---------------------------------------------------------------------
  // Decimal numerals.

  function DigitChar(d: int): char
    requires 0 <= d < 10
  {
    "0123456789"[d]
  }

  predicate IsDigit(ch: char) { '0' <= ch <= '9' }

  function DigitValue(ch: char): int
    requires IsDigit(ch)
  {
    ch as int - '0' as int
  }

  /** `String(n)` for a natural number. */
  function NatToString(n: nat): (s: string)
    ensures |s| >= 1
    ensures forall i :: 0 <= i < |s| ==> IsDigit(s[i])
    ensures |s| > 1 ==> s[0] != '0'
    decreases n
  {
    if n < 10 then [DigitChar(n)] else NatToString(n / 10) + [DigitChar(n % 10)]
  }

  /** The value of a string of decimal digits. */
  function ParseDigits(s: string): nat
    requires forall i :: 0 <= i < |s| ==> IsDigit(s[i])
  {
    if s == [] then 0 else 10 * ParseDigits(s[..|s| - 1]) + DigitValue(s[|s| - 1])
  }

  lemma DigitRoundTrip(d: int)
    requires 0 <= d < 10
    ensures IsDigit(DigitChar(d)) && DigitValue(DigitChar(d)) == d
  {
  }

  /** Reading the numeral back gives the number. */
  lemma {:induction false} NatToStringRoundTrip(n: nat)
    ensures ParseDigits(NatToString(n)) == n
    decreases n
  {
    var s := NatToString(n);
    if n < 10 {
      DigitRoundTrip(n);
      assert s[..|s| - 1] == [];
    } else {
      NatToStringRoundTrip(n / 10);
      DigitRoundTrip(n % 10);
      assert s[..|s| - 1] == NatToString(n / 10);
    }
  }

  // ---------------------------------------------------------------------
  // First-occurrence replacement.

  predicate OccursAt(text: string, pat: string, i: int)
  {
    0 <= i && i + |pat| <= |text| && text[i..i + |pat|] == pat
  }

  lemma OccursShift(text: string, pat: string)
    requires text != []
    ensures forall j :: 1 <= j ==> (OccursAt(text, pat, j) <==> OccursAt(text[1..], pat, j - 1))
  {
    forall j | 1 <= j
      ensures OccursAt(text, pat, j) <==> OccursAt(text[1..], pat, j - 1)
    {
      if j + |pat| <= |text| {
        var a, b := text[1..][j - 1..j - 1 + |pat|], text[j..j + |pat|];
        forall k | 0 <= k < |a|
          ensures a[k] == b[k]
        {
        }
        assert a == b;
      }
    }
  }

  /** `text.indexOf(pat)`, with `None` for -1. */
  function IndexOf(text: string, pat: string): (r: Option<nat>)
    ensures r.Some? ==> OccursAt(text, pat, r.value)
    ensures r.Some? ==> forall j :: 0 <= j < r.value ==> !OccursAt(text, pat, j)
    ensures r.None? ==> forall j :: 0 <= j <= |text| - |pat| ==> !OccursAt(text, pat, j)
    decreases |text|
  {
    if |text| < |pat| then None
    else if text[..|pat|] == pat then Some(0)
    else
      assert !OccursAt(text, pat, 0) by {
        assert text[0..|pat|] == text[..|pat|];
      }
      OccursShift(text, pat);
      match IndexOf(text[1..], pat)
      case None => None
      case Some(k) => Some(k + 1)
  }

  /** `text.replace(pat, rep)` with a string pattern. */
  function ReplaceFirst(text: string, pat: string, rep: string): (r: string)
    ensures IndexOf(text, pat).None? ==> r == text
    ensures IndexOf(text, pat).Some? ==>
              var i := IndexOf(text, pat).value;
              r == text[..i] + rep + text[i + |pat|..]
  {
    match IndexOf(text, pat)
    case None => text
    case Some(i) => text[..i] + rep + text[i + |pat|..]
  }

  /** Replacing the first occurrence keeps everything in front of it and
      everything behind it, later occurrences included. */
  lemma ReplaceFirstKeepsRest(text: string, pat: string, rep: string)
    requires IndexOf(text, pat).Some?
    ensures var i := IndexOf(text, pat).value;
            var r := ReplaceFirst(text, pat, rep);
            && r[..i] == text[..i]
            && r[i..i + |rep|] == rep
            && r[i + |rep|..] == text[i + |pat|..]
            && |r| == |text| - |pat| + |rep|
  {
  }

  /** The placeholder for argument `i`. */
  function Placeholder(i: nat): string
  {
    "{" + NatToString(i) + "}"
  }

  /** `args.forEach((arg, i) => text = text.replace(`{${i}}`, arg))`,
      starting at index `from`. */
  function Fill(text: string, args: seq<string>, from: nat): string
    requires from <= |args|
    decreases |args| - from
  {
    if from == |args| then text
    else Fill(ReplaceFirst(text, Placeholder(from), args[from]), args, from + 1)
  }

  /** `t(key, ...args)` with `lang` as `config.defaultLang`. Looking up a
      language that has no table throws in the source; that is `None`. A
      missing or empty entry falls back to the key itself. */
  function Translate(lang: string, key: string, args: seq<string>): (r: Option<string>)
    ensures r.None? <==> lang !in Translations()
    ensures r.Some? && args == [] ==>
              r.value == if key in Translations()[lang] && Translations()[lang][key] != ""
                         then Translations()[lang][key] else key
  {
    if lang !in Translations() then None
    else
      var table := Translations()[lang];
      var text := if key in table && table[key] != "" then table[key] else key;
      Some(Fill(text, args, 0))
  }

  /** A text without placeholders is returned as it is, whatever the
      arguments. */
  lemma {:induction false} FillWithoutPlaceholders(text: string, args: seq<string>, from: nat)
    requires from <= |args|
    requires forall i :: from <= i < |args| ==> IndexOf(text, Placeholder(i)).None?
    ensures Fill(text, args, from) == text
    decreases |args| - from
  {
    if from < |args| {
      FillWithoutPlaceholders(text, args, from + 1);
    }
  }

  /** `IndexOf` is determined by its contract. */
  lemma IndexOfIs(text: string, pat: string, i: nat)
    requires OccursAt(text, pat, i)
    requires forall j :: 0 <= j < i ==> !OccursAt(text, pat, j)
    ensures IndexOf(text, pat) == Some(i)
  {
  }

  /** A one-argument text: the argument lands where `{0}` was. */
  lemma FillOne(text: string, i: nat, arg: string)
    requires OccursAt(text, "{0}", i)
    requires forall j :: 0 <= j < i ==> text[j] != '{'
    ensures Fill(text, [arg], 0) == text[..i] + arg + text[i + 3..]
  {
    assert Placeholder(0) == "{0}";
    forall j | 0 <= j < i
      ensures !OccursAt(text, "{0}", j)
    {
      assert text[j..j + 3][0] == text[j];
    }
    IndexOfIs(text, "{0}", i);
  }

  /** A translated text with one `{0}` and no brace before it: the
      argument lands where `{0}` was. */
  lemma TranslateOne(lang: string, key: string, text: string, i: nat, arg: string)
    requires lang in Translations() && key in Translations()[lang]
    requires Translations()[lang][key] == text != ""
    requires OccursAt(text, "{0}", i)
    requires forall j :: 0 <= j < i ==> text[j] != '{'
    ensures Translate(lang, key, [arg]) == Some(text[..i] + arg + text[i + 3..])
  {
    FillOne(text, i, arg);
  }

  /** The count of `totalCommits` lands where `{0}` was (Turkish). */
  lemma TotalCommitsTurkish(n: nat)
    ensures Translate("TR", "totalCommits", [NatToString(n)]) == Some("Toplam " + NatToString(n) + " commit")
  {
    var tr := "Toplam {0} commit";
    assert TurkishTable()["totalCommits"] == tr;
    assert tr[7..10] == "{0}" && tr[..7] == "Toplam " && tr[10..] == " commit";
    TranslateOne("TR", "totalCommits", tr, 7, NatToString(n));
  }

  /** The count of `totalCommits` lands where `{0}` was (English). */
  lemma TotalCommitsEnglish(n: nat)
    ensures Translate("EN", "totalCommits", [NatToString(n)]) == Some("Total " + NatToString(n) + " commits")
  {
    var en := "Total {0} commits";
    assert EnglishTable()["totalCommits"] == en;
    assert en[6..9] == "{0}" && en[..6] == "Total " && en[9..] == " commits";
    TranslateOne("EN", "totalCommits", en, 6, NatToString(n));
  }
}
