/**
 The Discord notification of server.js (`sendToDiscord`): the embed record
 built from a commit and the decision whether anything is posted. The POST
 itself is not modelled; its outcome is an input.

 JavaScript's `a || b` yields `b` when `a` is the empty string, so every
 `|| 'default'` of the source is `OrDefault`.
 */
module Notification {
  import opened Seqs
  import opened Model

  const TitlePrefix: string := "📝 Yeni Commit: "
  const UnknownRepo: string := "Unknown Repo"
  const NoMessage: string := "Commit mesajı yok"
  const Unknown: string := "Bilinmiyor"
  const NoSha: string := "N/A"
  const DiscordBlue: int := 0x5865F2
  const FooterText: string := "GitHub Changelog Sistemi"
  const BotName: string := "GitHub Changelog"
  const BotAvatar: string := "https://github.githubassets.com/images/modules/logos_page/GitHub-Mark.png"

  /** Length of the abbreviated commit hash. */
  const ShortShaLength: int := 7

  datatype Field = Field(name: string, value: string, inline: bool)

  datatype Embed = Embed(
    title: string,
    description: string,
    color: int,
    fields: seq<Field>,
    timestamp: int,
    footer: string,
    url: Option<string>)

  /** The body posted to the webhook. */
  datatype Payload = Payload(username: string, avatarUrl: string, embeds: seq<Embed>)

  /** `a || b` on strings. */
  function OrDefault(a: string, b: string): (r: string)
    ensures a != "" ==> r == a
    ensures a == "" ==> r == b
  {
    if a == "" then b else a
  }

  /** `s.split('\n')[0]`: everything before the first line break. */
  function FirstLine(s: string): (r: string)
    ensures r <= s
    ensures '\n' !in r
    ensures |r| < |s| ==> s[|r|] == '\n'
  {
    if s == [] || s[0] == '\n' then [] else [s[0]] + FirstLine(s[1..])
  }

  /** The three properties of `FirstLine` determine it. */
  lemma {:induction false} FirstLineUnique(s: string, r: string)
    requires r <= s && '\n' !in r
    requires |r| < |s| ==> s[|r|] == '\n'
    ensures r == FirstLine(s)
  {
    if s != [] && s[0] != '\n' {
      assert r[0] == s[0];
      assert r[1..] <= s[1..];
      FirstLineUnique(s[1..], r[1..]);
      assert r == [r[0]] + r[1..];
    }
  }

  /** `s.substring(0, 7)`. */
  function ShortSha(s: string): (r: string)
    ensures r <= s
    ensures |r| == Min(ShortShaLength, |s|)
  {
    s[..Min(ShortShaLength, |s|)]
  }

  /** The embed for a commit (server.js:50-80). */
  function BuildEmbed(c: Commit): (e: Embed)
    ensures |e.fields| == 3
    ensures e.title == TitlePrefix + OrDefault(c.repo.name, UnknownRepo)
    ensures e.url.Some? <==> !c.repo.isPrivate && c.raw.htmlUrl != ""
    ensures e.url.Some? ==> e.url.value == c.raw.htmlUrl
    ensures e.timestamp == c.raw.date
  {
    Embed(
      TitlePrefix + OrDefault(c.repo.name, UnknownRepo),
      OrDefault(FirstLine(c.raw.message), NoMessage),
      DiscordBlue,
      [ Field("👤 Geliştirici", OrDefault(c.raw.authorName, Unknown), true),
        Field("📦 Repo", OrDefault(c.repo.name, Unknown), true),
        Field("🔗 SHA", "`" + OrDefault(ShortSha(c.raw.sha), NoSha) + "`", true) ],
      c.raw.date,
      FooterText,
      if !c.repo.isPrivate && c.raw.htmlUrl != "" then Some(c.raw.htmlUrl) else None)
  }

  /** The description is the commit message's first line, and the default
      text exactly when that line is empty. */
  lemma EmbedDescription(c: Commit)
    ensures var d := BuildEmbed(c).description;
            if c.raw.message == "" || c.raw.message[0] == '\n' then d == NoMessage
            else d <= c.raw.message && '\n' !in d && d != ""
                 && (|d| < |c.raw.message| ==> c.raw.message[|d|] == '\n')
  {
  }

  /** The SHA field shows the first seven characters of the hash between
      backticks, or `N/A` when the hash is empty. */
  lemma EmbedSha(c: Commit)
    ensures var v := BuildEmbed(c).fields[2].value;
            && |v| >= 2 && v[0] == '`' && v[|v| - 1] == '`'
            && (c.raw.sha == "" ==> v[1..|v| - 1] == NoSha)
            && (c.raw.sha != "" ==>
                  v[1..|v| - 1] <= c.raw.sha && |v| - 2 == Min(ShortShaLength, |c.raw.sha|))
  {
    var v := BuildEmbed(c).fields[2].value;
    var inner := OrDefault(ShortSha(c.raw.sha), NoSha);
    assert v == "`" + inner + "`";
    assert v[1..|v| - 1] == inner;
  }

  /** The author and repository fields fall back to `Bilinmiyor`. */
  lemma EmbedFields(c: Commit)
    ensures BuildEmbed(c).fields[0].value == (if c.raw.authorName == "" then Unknown else c.raw.authorName)
    ensures BuildEmbed(c).fields[1].value == (if c.repo.name == "" then Unknown else c.repo.name)
  {
  }

  /** `sendToDiscord`: with no webhook configured nothing is posted and the
      result is false; otherwise the embed is posted and the result is
      whether the POST succeeded (`postOk`). */
  function Notify(webhook: string, c: Commit, postOk: bool): (r: (bool, Option<Payload>))
    ensures webhook == "" ==> r.0 == false && r.1.None?
    ensures webhook != "" ==> r.0 == postOk && r.1.Some? && r.1.value.embeds == [BuildEmbed(c)]
  {
    if webhook == "" then (false, None)
    else (postOk, Some(Payload(BotName, BotAvatar, [BuildEmbed(c)])))
  }
}
