/** The configuration snapshot the bot works from, the feature flags, and the choice of a
    greeting by priority of configuration keys. */
module Settings {
  import opened Wrappers
  import opened Text

  /** A configured chat or media entry: one string, or a list from which one is drawn. */
  datatype Payload = Text(text: string) | Choices(options: seq<string>)

  /** `message && message.length > 0`: the entry has something to send. */
  predicate NonEmpty(p: Payload) {
    match p
    case Text(t) => t != []
    case Choices(l) => l != []
  }

  /** JavaScript truthiness of the entry: an empty string is false, every array is true. */
  predicate Truthy(p: Payload) {
    p.Choices? || p.text != []
  }

  /** The string drawn from an entry; `k` stands for `Math.floor(Math.random() * length)`. */
  function Choose(p: Payload, k: nat): (r: string)
    ensures p.Choices? && p.options != [] ==> r in p.options
    ensures p.Text? ==> r == p.text
  {
    match p
    case Text(t) => t
    case Choices(l) => if l == [] then [] else l[k % |l|]
  }

  lemma ModOfSmaller(k: nat, n: nat)
    requires k < n
    ensures k % n == k
  {
  }

  /** A draw already in range picks that very option. */
  lemma ChooseAt(l: seq<string>, k: nat)
    requires k < |l|
    ensures Choose(Choices(l), k) == l[k]
  {
    ModOfSmaller(k, |l|);
  }

  /** One entry of GREETINGS, TRIGGERED_MESSAGES or FORBIDDEN_PHRASES: which of the keys CHAT,
      MEDIA, SHOUTOUT, TIMEOUT and BAN it has, and their values. */
  datatype Rule = Rule(
    chat: Option<Payload>,
    media: Option<Payload>,
    shoutout: Option<Payload>,
    timeout: Option<string>,
    ban: bool)

  /** One entry of PERIODIC_MESSAGES. */
  datatype PeriodicMessage = PeriodicMessage(interval: int, chat: Option<Payload>, media: Option<Payload>)

  /** The TIMER_ALERT entry; its strings may hold the placeholder TIMERNAME. */
  datatype TimerAlert = TimerAlert(chat: Option<string>, media: Option<string>)

  /** The sender of a chat line as the chat library describes it. `broadcaster` is the
      "broadcaster" badge. */
  datatype User = User(username: string, mod: bool, vip: bool, broadcaster: bool)

  /** The configuration file. Object-valued sections whose keys are iterated keep their key
      order as a sequence of pairs; an absent section is empty. */
  datatype Config = Config(
    ignoreUsers: seq<string>,
    adminUsers: seq<string>,
    flags: map<string, string>,
    greetings: Option<map<string, Rule>>,
    forbidden: seq<(string, Rule)>,
    triggers: seq<(string, Rule)>,
    randomLineCommands: map<string, string>,
    periodic: seq<(string, PeriodicMessage)>,
    timerAlert: Option<TimerAlert>,
    audioFilePath: bool,
    mediaPlayerCommand: string)

  /** `isFeatureEnabled`: the flag is present and holds exactly the string "true". */
  predicate IsFeatureEnabled(flags: map<string, string>, name: string) {
    name in flags && flags[name] == "true"
  }

  /** The IGNORE_USERS gate compares the lower-cased user name. */
  predicate IsIgnored(cfg: Config, username: string) {
    ToLower(username) in cfg.ignoreUsers
  }

  /** `user && user.username && ADMIN_USERS.includes(user.username.toLowerCase())`. */
  predicate IsAdmin(cfg: Config, username: string) {
    username != [] && ToLower(username) in cfg.adminUsers
  }

  /** A periodic message is looked up by its key; keys of a configuration object are unique,
      so the first pair with that key is the entry. */
  predicate HasPeriodic(ps: seq<(string, PeriodicMessage)>, key: string) {
    exists i :: 0 <= i < |ps| && ps[i].0 == key
  }

  function PeriodicEntry(ps: seq<(string, PeriodicMessage)>, key: string): (m: PeriodicMessage)
    requires HasPeriodic(ps, key)
    ensures exists i :: 0 <= i < |ps| && ps[i] == (key, m)
  {
    if ps[0].0 == key then ps[0].1 else PeriodicEntry(ps[1..], key)
  }

  // ---------------------------------------------------------------- greeting choice

  const DefaultKey := "default"
  const DefaultModKey := "default_mod"
  const DefaultVipKey := "default_vip"
  const FirstTimeKey := "first_time_chatter"

  /** The greeting chat text: the user's own entry, else `default_mod` for a moderator, else
      `default_vip` for a VIP, else `first_time_chatter` for a first-time chatter, each taken
      only when it has a CHAT key; else the CHAT of `default`, whose absence throws. `None`
      stands for the empty greeting, which sends nothing. */
  function GreetingChat(g: map<string, Rule>, lc: string, isMod: bool, isVip: bool, first: bool)
    : (r: Outcome<Option<Payload>>)
    ensures r == Thrown ==> DefaultKey !in g
    ensures lc in g && g[lc].chat.Some? ==> r == Done(g[lc].chat)
    ensures r.Done? && r.value.Some? ==> exists k :: k in g && g[k].chat == r.value
  {
    if lc in g && g[lc].chat.Some? then Done(g[lc].chat)
    else if isMod && DefaultModKey in g && g[DefaultModKey].chat.Some? then Done(g[DefaultModKey].chat)
    else if isVip && DefaultVipKey in g && g[DefaultVipKey].chat.Some? then Done(g[DefaultVipKey].chat)
    else if first && FirstTimeKey in g && g[FirstTimeKey].chat.Some? then Done(g[FirstTimeKey].chat)
    else if DefaultKey !in g then Thrown
    else Done(g[DefaultKey].chat)
  }

  /** `[k]` when `b` holds, else nothing. */
  function When(b: bool, k: string): seq<string> {
    if b then [k] else []
  }

  /** The keys consulted for a greeting, in priority order. */
  function GreetingKeys(lc: string, isMod: bool, isVip: bool, first: bool): seq<string> {
    [lc] + (When(isMod, DefaultModKey) + (When(isVip, DefaultVipKey) + When(first, FirstTimeKey)))
  }

  /** The first of `keys` whose entry has a CHAT key. */
  function FirstWithChat(g: map<string, Rule>, keys: seq<string>): (r: Option<string>)
    ensures r.Some? ==> r.value in keys && r.value in g && g[r.value].chat.Some?
    ensures r.None? ==> forall k :: k in keys ==> k !in g || g[k].chat.None?
  {
    if keys == [] then None
    else if keys[0] in g && g[keys[0]].chat.Some? then Some(keys[0])
    else FirstWithChat(g, keys[1..])
  }

  lemma FirstWithChatWhen(g: map<string, Rule>, b: bool, k: string, rest: seq<string>)
    ensures FirstWithChat(g, When(b, k) + rest) ==
      if b && k in g && g[k].chat.Some? then Some(k) else FirstWithChat(g, rest)
  {
    if b {
      assert (When(b, k) + rest)[1..] == rest;
    } else {
      assert When(b, k) + rest == rest;
    }
  }

  /** The chat greeting is the CHAT of the first key, in priority order, that has one; with
      none it falls back to `default`, and throws when `default` is missing. */
  lemma GreetingChatByPriority(g: map<string, Rule>, lc: string, isMod: bool, isVip: bool, first: bool)
    ensures GreetingChat(g, lc, isMod, isVip, first) ==
      match FirstWithChat(g, GreetingKeys(lc, isMod, isVip, first))
      case Some(k) => Done(g[k].chat)
      case None => if DefaultKey in g then Done(g[DefaultKey].chat) else Thrown
  {
    var tail3 := When(first, FirstTimeKey);
    var tail2 := When(isVip, DefaultVipKey) + tail3;
    var tail1 := When(isMod, DefaultModKey) + tail2;
    FirstWithChatWhen(g, true, lc, tail1);
    FirstWithChatWhen(g, isMod, DefaultModKey, tail2);
    FirstWithChatWhen(g, isVip, DefaultVipKey, tail3);
    FirstWithChatWhen(g, first, FirstTimeKey, []);
    assert tail3 + [] == tail3;
    assert When(true, lc) == [lc];
  }

  /** `env[G][key] && env[G][key][MEDIA]`. */
  predicate HasTruthyMedia(g: map<string, Rule>, key: string) {
    key in g && g[key].media.Some? && Truthy(g[key].media.value)
  }

  /** The greeting media as the source writes it. Its VIP branch reads the undeclared global
      `GREETINGS` instead of the configuration, so it throws a ReferenceError for every VIP
      that reaches it. */
  function GreetingMediaAsWritten(g: map<string, Rule>, lc: string, isMod: bool, isVip: bool, first: bool)
    : (r: Outcome<Option<Payload>>)
    ensures isVip && !HasTruthyMedia(g, lc) && !(isMod && HasTruthyMedia(g, DefaultModKey)) ==> r == Thrown
    ensures !isVip ==> r == GreetingMedia(g, lc, isMod, isVip, first)
    ensures r.Done? ==> r == GreetingMedia(g, lc, isMod, isVip, first)
  {
    if HasTruthyMedia(g, lc) then Done(g[lc].media)
    else if isMod && DefaultModKey !in g then Thrown
    else if isMod && HasTruthyMedia(g, DefaultModKey) then Done(g[DefaultModKey].media)
    else if isVip then Thrown
    else if first && FirstTimeKey in g && g[FirstTimeKey].media.Some? then Done(g[FirstTimeKey].media)
    else if DefaultKey !in g then Thrown
    else if HasTruthyMedia(g, DefaultKey) then Done(g[DefaultKey].media)
    else Done(None)
  }

  /** A VIP with no media of their own gets no media even when `default_vip` has one: the
      greeting throws instead. */
  lemma VipMediaThrowsAsWritten()
    ensures
      var g := map[DefaultKey := Rule(None, None, None, None, false),
                   DefaultVipKey := Rule(None, Some(Text("vip.mp3")), None, None, false)];
      GreetingMediaAsWritten(g, "ann", false, true, false) == Thrown
  {
  }

  /** The greeting media with the VIP branch reading `default_vip` from the configuration,
      like the moderator branch: the user's own truthy MEDIA, else `default_mod`'s for a
      moderator, `default_vip`'s for a VIP, `first_time_chatter`'s for a first-time chatter,
      else `default`'s. A missing `default_mod` (for a moderator), `default_vip` (for a VIP)
      or `default` entry throws when its branch is reached. */
  function GreetingMedia(g: map<string, Rule>, lc: string, isMod: bool, isVip: bool, first: bool)
    : (r: Outcome<Option<Payload>>)
    ensures r == Thrown ==>
      DefaultKey !in g || (isMod && DefaultModKey !in g) || (isVip && DefaultVipKey !in g)
    ensures HasTruthyMedia(g, lc) ==> r == Done(g[lc].media)
    ensures !HasTruthyMedia(g, lc) && !isMod && isVip && HasTruthyMedia(g, DefaultVipKey) ==>
      r == Done(g[DefaultVipKey].media)
    ensures r.Done? && r.value.Some? ==> exists k :: k in g && g[k].media == r.value
  {
    if HasTruthyMedia(g, lc) then Done(g[lc].media)
    else if isMod && DefaultModKey !in g then Thrown
    else if isMod && HasTruthyMedia(g, DefaultModKey) then Done(g[DefaultModKey].media)
    else if isVip && DefaultVipKey !in g then Thrown
    else if isVip && HasTruthyMedia(g, DefaultVipKey) then Done(g[DefaultVipKey].media)
    else if first && FirstTimeKey in g && g[FirstTimeKey].media.Some? then Done(g[FirstTimeKey].media)
    else if DefaultKey !in g then Thrown
    else if HasTruthyMedia(g, DefaultKey) then Done(g[DefaultKey].media)
    else Done(None)
  }

  /** With the corrected lookup, the configuration of the example above greets the VIP with
      the `default_vip` media. */
  lemma VipMediaCorrected(g: map<string, Rule>, lc: string)
    requires DefaultKey in g && DefaultVipKey in g && HasTruthyMedia(g, DefaultVipKey)
    requires !HasTruthyMedia(g, lc)
    ensures GreetingMedia(g, lc, false, true, false) == Done(g[DefaultVipKey].media)
    ensures GreetingMediaAsWritten(g, lc, false, true, false) == Thrown
  {
  }

  /** The `first_time_chatter` branch takes any MEDIA key, even an empty one; the other
      branches take only a truthy MEDIA. */
  predicate OffersMedia(g: map<string, Rule>, key: string, truthy: bool) {
    key in g && g[key].media.Some? && (truthy ==> Truthy(g[key].media.value))
  }

  /** The media candidates, in priority order, each with whether its MEDIA must be truthy. */
  function MediaKeys(lc: string, isMod: bool, isVip: bool, first: bool): seq<(string, bool)> {
    [(lc, true)] + ((if isMod then [(DefaultModKey, true)] else [])
      + ((if isVip then [(DefaultVipKey, true)] else []) + (if first then [(FirstTimeKey, false)] else [])))
  }

  /** The first candidate that offers media. */
  function FirstWithMedia(g: map<string, Rule>, keys: seq<(string, bool)>): (r: Option<string>)
    ensures r.Some? ==> exists e :: e in keys && e.0 == r.value && OffersMedia(g, e.0, e.1)
    ensures r.None? ==> forall e :: e in keys ==> !OffersMedia(g, e.0, e.1)
  {
    if keys == [] then None
    else if OffersMedia(g, keys[0].0, keys[0].1) then Some(keys[0].0)
    else FirstWithMedia(g, keys[1..])
  }

  lemma FirstWithMediaWhen(g: map<string, Rule>, b: bool, e: (string, bool), rest: seq<(string, bool)>)
    ensures FirstWithMedia(g, (if b then [e] else []) + rest) ==
      if b && OffersMedia(g, e.0, e.1) then Some(e.0) else FirstWithMedia(g, rest)
  {
    if b {
      assert ([e] + rest)[1..] == rest;
    } else {
      assert [] + rest == rest;
    }
  }

  /** When none of the entries a branch needs is missing, the greeting media is that of the
      first candidate, in priority order, that offers one, else `default`'s truthy MEDIA, else
      none. */
  lemma GreetingMediaByPriority(g: map<string, Rule>, lc: string, isMod: bool, isVip: bool, first: bool)
    requires DefaultKey in g && (isMod ==> DefaultModKey in g) && (isVip ==> DefaultVipKey in g)
    ensures GreetingMedia(g, lc, isMod, isVip, first) ==
      match FirstWithMedia(g, MediaKeys(lc, isMod, isVip, first))
      case Some(k) => Done(g[k].media)
      case None => Done(if HasTruthyMedia(g, DefaultKey) then g[DefaultKey].media else None)
  {
    var tail3: seq<(string, bool)> := if first then [(FirstTimeKey, false)] else [];
    var tail2 := (if isVip then [(DefaultVipKey, true)] else []) + tail3;
    var tail1 := (if isMod then [(DefaultModKey, true)] else []) + tail2;
    FirstWithMediaWhen(g, true, (lc, true), tail1);
    FirstWithMediaWhen(g, isMod, (DefaultModKey, true), tail2);
    FirstWithMediaWhen(g, isVip, (DefaultVipKey, true), tail3);
    FirstWithMediaWhen(g, first, (FirstTimeKey, false), []);
    assert tail3 + [] == tail3;
  }

  /** The lookup as written differs from the corrected one exactly for a VIP who reaches the
      VIP branch: there it throws, everywhere else the two agree. */
  lemma GreetingMediaAsWrittenVersusCorrected(g: map<string, Rule>, lc: string, isMod: bool, isVip: bool, first: bool)
    ensures GreetingMediaAsWritten(g, lc, isMod, isVip, first) ==
      if isVip && !HasTruthyMedia(g, lc) && !(isMod && DefaultModKey !in g) && !(isMod && HasTruthyMedia(g, DefaultModKey))
      then Thrown else GreetingMedia(g, lc, isMod, isVip, first)
  {
  }
}
