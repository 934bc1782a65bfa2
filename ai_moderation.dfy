/** The state of `AIModeration` (ai_moderation.py:13-48, 103-107, 204-216): a per-guild config
    map and a per-guild, per-user map of the last time a user's message was checked; plus the
    choice of rules text (ai_moderation.py:59-100) and the clean-up of the model's reply before
    it is parsed (ai_moderation.py:167-177).  Clock readings are seconds, as `time.time()`. */
module AiModeration {
  import opened Wrappers
  import opened Text
  import opened Lists

  // ---------------------------------------------------------------- per-guild config

  /** `{"enabled": bool, "rules": str, "analyzed": bool}` (ai_moderation.py:29-30). */
  datatype GuildConfig = GuildConfig(enabled: bool, rules: string, analyzed: bool)

  /** The entry created for a guild seen for the first time (ai_moderation.py:47, 104). */
  const DefaultConfig := GuildConfig(false, "", false)

  function ConfigOf(config: map<int, GuildConfig>, guild: int): GuildConfig {
    if guild in config then config[guild] else DefaultConfig
  }

  /** The map after `set_ai_enabled` (ai_moderation.py:46-48). */
  function WithEnabled(config: map<int, GuildConfig>, guild: int, on: bool): map<int, GuildConfig> {
    config[guild := ConfigOf(config, guild).(enabled := on)]
  }

  /** The map after the store step of `analyze_server_rules` (ai_moderation.py:103-107). */
  function WithRules(config: map<int, GuildConfig>, guild: int, rules: string): map<int, GuildConfig> {
    config[guild := ConfigOf(config, guild).(rules := rules, analyzed := true)]
  }

  /** Switching AI moderation on or off changes only that flag, of that guild; a guild seen for
      the first time gets empty rules, not yet analysed. */
  lemma EnablingKeepsRules(config: map<int, GuildConfig>, guild: int, on: bool)
    ensures var c := WithEnabled(config, guild, on);
      && guild in c
      && c[guild].enabled == on
      && c[guild].rules == ConfigOf(config, guild).rules
      && c[guild].analyzed == ConfigOf(config, guild).analyzed
      && (guild !in config ==> c[guild] == GuildConfig(on, "", false))
      && (forall g :: g != guild ==> (g in c <==> g in config) && ConfigOf(c, g) == ConfigOf(config, g))
  {
  }

  /** Storing rules marks the guild analysed and leaves its on/off flag alone. */
  lemma StoringRulesKeepsEnabled(config: map<int, GuildConfig>, guild: int, rules: string)
    ensures var c := WithRules(config, guild, rules);
      && guild in c
      && c[guild].rules == rules
      && c[guild].analyzed
      && c[guild].enabled == ConfigOf(config, guild).enabled
      && (guild !in config ==> !c[guild].enabled)
      && (forall g :: g != guild ==> (g in c <==> g in config) && ConfigOf(c, g) == ConfigOf(config, g))
  {
  }

  // ---------------------------------------------------------------- per-user cooldown

  /** `self.cooldown_seconds` (ai_moderation.py:34). */
  const CooldownSeconds: real := 2.0

  /** `user_check_cooldown[guild].get(user, 0)` (ai_moderation.py:210). */
  function LastCheck(cooldown: map<int, map<int, real>>, guild: int, user: int): real {
    if guild in cooldown && user in cooldown[guild] then cooldown[guild][user] else 0.0
  }

  /** `should_check_message` at time `now` (ai_moderation.py:204-216): the new map and the answer.
      The guild's entry is created even when the answer is no. */
  function Checked(cooldown: map<int, map<int, real>>, guild: int, user: int, now: real): (map<int, map<int, real>>, bool) {
    var users := if guild in cooldown then cooldown[guild] else map[];
    if now - LastCheck(cooldown, guild, user) < CooldownSeconds then (cooldown[guild := users], false)
    else (cooldown[guild := users[user := now]], true)
  }

  /** A check within two seconds of the last one is refused and records nothing for the user; any
      other check is allowed and records `now`. */
  lemma CooldownDecides(cooldown: map<int, map<int, real>>, guild: int, user: int, now: real)
    ensures var (c, ok) := Checked(cooldown, guild, user, now);
      && (ok <==> now - LastCheck(cooldown, guild, user) >= CooldownSeconds)
      && LastCheck(c, guild, user) == (if ok then now else LastCheck(cooldown, guild, user))
      && guild in c
  {
  }

  /** A check on one user leaves every other user's and guild's time as it was. */
  lemma CheckIsLocal(cooldown: map<int, map<int, real>>, guild: int, user: int, now: real)
    ensures var c := Checked(cooldown, guild, user, now).0;
      forall g, u :: (g, u) != (guild, user) ==> LastCheck(c, g, u) == LastCheck(cooldown, g, u)
  {
  }

  /** A user never checked counts as last checked at time 0. */
  lemma UnseenUser(cooldown: map<int, map<int, real>>, guild: int, user: int, now: real)
    requires guild !in cooldown || user !in cooldown[guild]
    ensures Checked(cooldown, guild, user, now).1 <==> now >= CooldownSeconds
  {
  }

  /** Two checks on the same user less than two seconds apart: the second is refused. */
  lemma SecondCheckRefused(cooldown: map<int, map<int, real>>, guild: int, user: int, first: real, second: real)
    requires Checked(cooldown, guild, user, first).1
    requires second - first < CooldownSeconds
    ensures !Checked(Checked(cooldown, guild, user, first).0, guild, user, second).1
  {
    CooldownDecides(cooldown, guild, user, first);
  }

  // ---------------------------------------------------------------- the rules text

  datatype TextChannel = TextChannel(name: string, readable: bool)

  /** `'rule' in ch.name.lower()` for a channel the bot may read (ai_moderation.py:62-65). */
  predicate IsRulesChannel(ch: TextChannel) {
    ch.readable && Contains(Lower(ch.name), "rule")
  }

  predicate IsExactRulesChannel(ch: TextChannel) {
    IsRulesChannel(ch) && (Lower(ch.name) == "rules" || Lower(ch.name) == "server-rules")
  }

  /** The first index from `i` on whose channel satisfies `p`. */
  function FirstWhere(channels: seq<TextChannel>, p: TextChannel -> bool, i: nat): (r: Option<nat>)
    requires i <= |channels|
    ensures r.Some? ==> i <= r.value < |channels| && p(channels[r.value])
    ensures r.Some? ==> forall j :: i <= j < r.value ==> !p(channels[j])
    ensures r.None? ==> forall j :: i <= j < |channels| ==> !p(channels[j])
    decreases |channels| - i
  {
    if i == |channels| then None
    else if p(channels[i]) then Some(i)
    else FirstWhere(channels, p, i + 1)
  }

  /** The channel the rules are read from (ai_moderation.py:62-70): the first one named exactly
      "rules" or "server-rules", otherwise the first one with "rule" in its name. */
  function RulesChannel(channels: seq<TextChannel>): Option<nat> {
    match FirstWhere(channels, IsExactRulesChannel, 0)
    case Some(i) => Some(i)
    case None => FirstWhere(channels, IsRulesChannel, 0)
  }

  lemma RulesChannelChoice(channels: seq<TextChannel>)
    ensures var r := RulesChannel(channels);
      && (r.Some? ==> r.value < |channels| && IsRulesChannel(channels[r.value]))
      && (r.None? <==> forall j :: 0 <= j < |channels| ==> !IsRulesChannel(channels[j]))
      && ((exists j :: 0 <= j < |channels| && IsExactRulesChannel(channels[j])) ==>
            r.Some? && IsExactRulesChannel(channels[r.value]) &&
            forall j :: 0 <= j < r.value ==> !IsExactRulesChannel(channels[j]))
  {
    var e := FirstWhere(channels, IsExactRulesChannel, 0);
    if e.None? {
      var f := FirstWhere(channels, IsRulesChannel, 0);
      if f.None? {
        assert forall j :: 0 <= j < |channels| ==> !IsRulesChannel(channels[j]);
      }
    }
  }

  /** What reading the chosen channel gave: `Forbidden`, or the contents of its last five
      messages, newest first. */
  datatype ChannelRead = ReadForbidden | Read(newestFirst: seq<string>)

  function Present(s: string): Option<string> {
    if s != [] then Some(s) else None
  }

  /** ai_moderation.py:93-100: the text literal, its indentation included. */
  const DefaultRules :=
    "\n" +
    "            Default Server Rules:\n" +
    "            1. Be respectful to all members\n" +
    "            2. No spam or excessive self-promotion\n" +
    "            3. No hate speech, discrimination, or harassment\n" +
    "            4. Keep content appropriate for all ages\n" +
    "            5. Follow Discord's Terms of Service and Community Guidelines\n" +
    "            "

  /** The non-empty messages, oldest first, separated by blank lines; "" when there are none
      (ai_moderation.py:72-83). */
  function ChannelRules(read: ChannelRead): string {
    match read
    case ReadForbidden => ""
    case Read(newestFirst) => JoinWith(Reverse(FilterMap(newestFirst, Present)), "\n\n")
  }

  /** The rules text `analyze_server_rules` settles on (ai_moderation.py:59-100); `read` is only
      consulted when a rules channel was found. */
  function RulesText(channels: seq<TextChannel>, read: ChannelRead, description: Option<string>): string {
    var fromChannel := if RulesChannel(channels).Some? then ChannelRules(read) else "";
    if fromChannel != "" then fromChannel
    else if description.Some? && description.value != "" then description.value
    else DefaultRules
  }

  /** Every message kept from the channel has content. */
  lemma KeptHaveContent(newestFirst: seq<string>, y: string)
    requires y in FilterMap(newestFirst, Present)
    ensures y != ""
  {
    FilterMapFrom(newestFirst, Present, y);
  }

  /** One message with content is enough for the channel to give rules. */
  lemma ChannelRulesNonEmpty(newestFirst: seq<string>, i: nat)
    requires i < |newestFirst| && newestFirst[i] != ""
    ensures ChannelRules(Read(newestFirst)) != ""
  {
    var kept := FilterMap(newestFirst, Present);
    FilterMapKeeps(newestFirst, Present, newestFirst[i]);
    var r := Reverse(kept);
    assert r[0] == kept[|kept| - 1];
    KeptHaveContent(newestFirst, kept[|kept| - 1]);
  }

  /** A channel message with content always wins. */
  lemma ChannelMessagesFirst(channels: seq<TextChannel>, newestFirst: seq<string>, description: Option<string>, i: nat)
    requires RulesChannel(channels).Some? && i < |newestFirst| && newestFirst[i] != ""
    ensures RulesText(channels, Read(newestFirst), description) ==
      JoinWith(Reverse(FilterMap(newestFirst, Present)), "\n\n")
    ensures RulesText(channels, Read(newestFirst), description) != ""
  {
    ChannelRulesNonEmpty(newestFirst, i);
  }

  /** With nothing from a channel, a non-empty guild description is used. */
  lemma DescriptionSecond(channels: seq<TextChannel>, read: ChannelRead, description: string)
    requires description != ""
    requires RulesChannel(channels).None? || read.ReadForbidden? ||
             forall i :: 0 <= i < |read.newestFirst| ==> read.newestFirst[i] == ""
    ensures RulesText(channels, read, Some(description)) == description
  {
    if RulesChannel(channels).Some? && read.Read? {
      FilterMapDropsAll(read.newestFirst, Present);
    }
  }

  /** With neither, the built-in default; the result is never empty. */
  lemma DefaultLast(channels: seq<TextChannel>, read: ChannelRead, description: Option<string>)
    requires RulesChannel(channels).None? || read.ReadForbidden? ||
             forall i :: 0 <= i < |read.newestFirst| ==> read.newestFirst[i] == ""
    requires description.None? || description.value == ""
    ensures RulesText(channels, read, description) == DefaultRules
  {
    if RulesChannel(channels).Some? && read.Read? {
      FilterMapDropsAll(read.newestFirst, Present);
    }
  }

  // ---------------------------------------------------------------- the model's reply

  /** ai_moderation.py:167-177: the reply stripped, an opening "```json" and then an opening "```"
      removed, a closing "```" removed, and the rest stripped. */
  function StripFences(reply: string): string {
    Strip(DropClosingFence(DropOpeningFence(DropJsonFence(Strip(reply)))))
  }

  function DropJsonFence(t: string): string {
    if StartsWith(t, "```json") then t[7..] else t
  }

  function DropOpeningFence(t: string): string {
    if StartsWith(t, "```") then t[3..] else t
  }

  function DropClosingFence(t: string): string {
    if EndsWith(t, "```") then t[..|t| - 3] else t
  }

  /** What follows an opening fence: a newline, the body, a newline and the closing fence. */
  lemma ClosingFenceDropped(body: string)
    ensures DropOpeningFence("\n" + body + "\n```") == "\n" + body + "\n```"
    ensures DropClosingFence("\n" + body + "\n```") == "\n" + body + "\n"
  {
    var t := "\n" + body + "\n```";
    assert t[0] == '\n';
    assert DropOpeningFence(t) == t;
    assert t[|t| - 3..] == "```";
    assert t[..|t| - 3] == "\n" + body + "\n";
  }

  lemma JsonFenceDropped(rest: string)
    ensures DropJsonFence("```json" + rest) == rest
  {
    var t := "```json" + rest;
    assert t[..7] == "```json" && t[7..] == rest;
  }

  lemma OpeningFenceDropped(rest: string)
    requires rest != [] && rest[0] == '\n'
    ensures DropJsonFence("```" + rest) == "```" + rest
    ensures DropOpeningFence("```" + rest) == rest
  {
    var t := "```" + rest;
    assert t[3] == '\n';
    assert |t| >= 7 ==> t[..7][3] == '\n';
    assert t[..3] == "```" && t[3..] == rest;
  }

  /** A fenced reply is its own `strip()`. */
  lemma FencedIsTrimmed(reply: string)
    requires |reply| > 0 && reply[0] == '`' && reply[|reply| - 1] == '`'
    ensures Strip(reply) == reply
  {
    StripTrimmed(reply);
  }

  /** A reply fenced as JSON gives back its body, stripped. */
  lemma FencedJsonReply(body: string)
    ensures StripFences("```json\n" + body + "\n```") == Strip(body)
  {
    var rest := "\n" + body + "\n```";
    var reply := "```json\n" + body + "\n```";
    assert reply == "```json" + rest;
    assert Strip(reply) == reply by {
      assert reply[0] == '`' && reply[|reply| - 1] == '`';
      FencedIsTrimmed(reply);
    }
    assert DropJsonFence(reply) == rest by { JsonFenceDropped(rest); }
    ClosingFenceDropped(body);
    assert DropClosingFence(DropOpeningFence(rest)) == "\n" + body + "\n";
    NewlinesStripped(body);
  }

  /** A reply fenced without a language gives back its body, stripped. */
  lemma FencedReply(body: string)
    ensures StripFences("```\n" + body + "\n```") == Strip(body)
  {
    var rest := "\n" + body + "\n```";
    assert "```\n" + body + "\n```" == "```" + rest;
    assert rest[0] == '\n' && rest[|rest| - 1] == '`';
    PlainFenceDropped(rest);
    assert DropClosingFence(rest) == "\n" + body + "\n" by { ClosingFenceDropped(body); }
    NewlinesStripped(body);
  }

  lemma NewlinesStripped(body: string)
    ensures Strip("\n" + body + "\n") == Strip(body)
  {
    assert AllSpace("\n") by { assert IsSpace("\n"[0]); }
    StripPadded("\n", body, "\n");
  }

  lemma PlainFenceDropped(rest: string)
    requires rest != [] && rest[0] == '\n' && rest[|rest| - 1] == '`'
    ensures StripFences("```" + rest) == Strip(DropClosingFence(rest))
  {
    var reply := "```" + rest;
    assert Strip(reply) == reply by {
      assert reply[0] == '`' && reply[|reply| - 1] == '`';
      FencedIsTrimmed(reply);
    }
    OpeningFenceDropped(rest);
  }

  /** A reply with no fence at either end is only stripped. */
  lemma UnfencedReply(reply: string)
    requires Trimmed(reply) && !StartsWith(reply, "```") && !EndsWith(reply, "```")
    ensures StripFences(reply) == reply
  {
    StripTrimmed(reply);
    assert !StartsWith(reply, "```json") by {
      if |reply| >= 7 {
        assert reply[..7][..3] == reply[..3];
      }
    }
  }

  // ---------------------------------------------------------------- the object

  class AIModeration {
    /** `self.enabled` */
    var enabled: bool
    /** Whether `__init__` reached the point where it creates the two dicts: it returns before
        that when there is no API key (ai_moderation.py:19-22), and every later use of them then
        raises `AttributeError`. */
    var hasState: bool
    var config: map<int, GuildConfig>
    var cooldown: map<int, map<int, real>>

    /** Enabled exactly when the dicts exist. */
    predicate Valid()
      reads this
    {
      enabled == hasState
    }

    /** `__init__` (ai_moderation.py:14-36), with or without an API key. */
    constructor (hasApiKey: bool)
      ensures Valid() && enabled == hasApiKey
      ensures config == map[] && cooldown == map[]
    {
      enabled := hasApiKey;
      hasState := hasApiKey;
      config := map[];
      cooldown := map[];
    }

    /** `is_ai_enabled` (ai_moderation.py:38-42). */
    function IsAiEnabled(guild: int): (r: bool)
      reads this
      ensures !enabled ==> !r
      ensures guild !in config ==> !r
      ensures enabled && guild in config ==> (r <==> config[guild].enabled)
    {
      enabled && ConfigOf(config, guild).enabled
    }

    /** `set_ai_enabled` (ai_moderation.py:44-48); `false` when it raises. */
    method SetAiEnabled(guild: int, on: bool) returns (done: bool)
      requires Valid()
      modifies this
      ensures Valid() && done == enabled
      ensures config == if done then WithEnabled(old(config), guild, on) else old(config)
      ensures enabled == old(enabled) && hasState == old(hasState) && cooldown == old(cooldown)
    {
      if !hasState {
        return false;
      }
      if guild !in config {
        config := config[guild := DefaultConfig];
      }
      config := config[guild := config[guild].(enabled := on)];
      return true;
    }

    /** `analyze_server_rules` (ai_moderation.py:51-109): the rules text, or `None` when the store
        step raises. */
    method AnalyzeServerRules(guild: int, channels: seq<TextChannel>, read: ChannelRead, description: Option<string>)
      returns (rules: Option<string>)
      requires Valid()
      modifies this
      ensures Valid()
      ensures rules == if hasState then Some(RulesText(channels, read, description)) else None
      ensures config == if hasState then WithRules(old(config), guild, RulesText(channels, read, description)) else old(config)
      ensures enabled == old(enabled) && hasState == old(hasState) && cooldown == old(cooldown)
    {
      var text := RulesText(channels, read, description);
      if !hasState {
        return None;
      }
      if guild !in config {
        config := config[guild := DefaultConfig];
      }
      config := config[guild := config[guild].(rules := text)];
      config := config[guild := config[guild].(analyzed := true)];
      return Some(text);
    }

    /** `should_check_message` at time `now` (ai_moderation.py:204-216); `None` when it raises. */
    method ShouldCheckMessage(guild: int, user: int, now: real) returns (r: Option<bool>)
      requires Valid()
      modifies this
      ensures Valid()
      ensures hasState ==> r.Some? && (cooldown, r.value) == Checked(old(cooldown), guild, user, now)
      ensures !hasState ==> r.None? && cooldown == old(cooldown)
      ensures enabled == old(enabled) && hasState == old(hasState) && config == old(config)
    {
      if !hasState {
        return None;
      }
      if guild !in cooldown {
        cooldown := cooldown[guild := map[]];
      }
      var users := cooldown[guild];
      assert users == if guild in old(cooldown) then old(cooldown)[guild] else map[];
      assert cooldown == old(cooldown)[guild := users];
      var last := if user in users then users[user] else 0.0;
      assert last == LastCheck(old(cooldown), guild, user);
      if now - last < CooldownSeconds {
        return Some(false);
      }
      cooldown := cooldown[guild := users[user := now]];
      assert cooldown == old(cooldown)[guild := users[user := now]];
      return Some(true);
    }
  }
}
