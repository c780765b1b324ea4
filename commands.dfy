/** The pure meaning of each step of the message dispatcher: what it emits and how it changes
    the bot's state, as functions of the configuration, the flags and the message. The class in
    `Dispatch` carries these out step by step and is proved against them. */
module Commands {
  import opened Wrappers
  import opened Text
  import opened Names
  import opened Settings
  import opened Responder

  /** What one step emits, in order: chat lines (`client.say`), media actions, and reactions
      handed to `setTimeout`. */
  datatype Reaction = Reaction(lines: seq<string>, effects: seq<Effect>, delayed: seq<Delayed>)

  const Silent := Reaction([], [], [])

  /** One reaction after another. */
  function Then(a: Reaction, b: Reaction): Reaction {
    Reaction(a.lines + b.lines, a.effects + b.effects, a.delayed + b.delayed)
  }

  lemma AppendAssoc<T>(a: seq<T>, b: seq<T>, c: seq<T>)
    ensures a + b + c == a + (b + c)
  {
  }

  lemma PrefixTrans<T>(a: seq<T>, b: seq<T>, c: seq<T>)
    requires a <= b && b <= c
    ensures a <= c
  {
  }

  // ---------------------------------------------------------------- greeting

  /** The shout-out `greetUser` schedules: only the user's own entry's SHOUTOUT, with no
      captures. */
  function GreetingShoutOut(g: map<string, Rule>, lc: string, target: string, username: string)
    : (r: seq<Delayed>)
    ensures |r| <= 1
    ensures |r| == 1 <==> lc in g && g[lc].shoutout.Some?
    ensures |r| == 1 ==> r[0] == ShoutOut(ShoutOutDelayMs, target, username, g[lc].shoutout.value, [])
  {
    if lc in g && g[lc].shoutout.Some? then [ShoutOut(ShoutOutDelayMs, target, username, g[lc].shoutout.value, [])]
    else []
  }

  /** The greetings feature is on: a GREETINGS section exists and the "greetings" flag is set. */
  predicate GreetingsActive(cfg: Config, flags: map<string, string>) {
    cfg.greetings.Some? && IsFeatureEnabled(flags, "greetings")
  }

  /** `greetUser` throws: a lookup of a missing `default`, `default_mod` or (with the corrected
      media lookup) `default_vip` entry is reached. */
  predicate GreetingThrows(cfg: Config, flags: map<string, string>, user: User, first: bool)
    ensures GreetingThrows(cfg, flags, user, first) ==>
      GreetingsActive(cfg, flags) &&
      (DefaultKey !in cfg.greetings.value || (user.mod && DefaultModKey !in cfg.greetings.value) ||
       (user.vip && DefaultVipKey !in cfg.greetings.value))
    ensures (GreetingsActive(cfg, flags) && DefaultKey !in cfg.greetings.value &&
             !(ToLower(user.username) in cfg.greetings.value && cfg.greetings.value[ToLower(user.username)].chat.Some?) &&
             !user.mod && !user.vip && !first) ==> GreetingThrows(cfg, flags, user, first)
  {
    GreetingsActive(cfg, flags) &&
    var g := cfg.greetings.value;
    var lc := ToLower(user.username);
    (GreetingChat(g, lc, user.mod, user.vip, first).Thrown? ||
     GreetingMedia(g, lc, user.mod, user.vip, first).Thrown?)
  }

  /** What `greetUser` emits, up to the point where it throws when it does: the chat greeting,
      then the greeting media, then the shout-out. `kc` and `km` are its two random draws. */
  function GreetingReaction(cfg: Config, flags: map<string, string>, target: string, user: User,
                            first: bool, kc: nat, km: nat): (r: Reaction)
    ensures !GreetingsActive(cfg, flags) ==> r == Silent
    ensures |r.lines| <= 1 && |r.effects| <= 1 && |r.delayed| <= 1
    ensures |r.delayed| == 1 ==>
      var g := cfg.greetings.value;
      var lc := ToLower(user.username);
      lc in g && g[lc].shoutout.Some? &&
      r.delayed[0] == ShoutOut(ShoutOutDelayMs, target, user.username, g[lc].shoutout.value, [])
    ensures r.effects != [] || r.delayed != [] ==> !GreetingThrows(cfg, flags, user, first)
  {
    if !GreetingsActive(cfg, flags) then Silent
    else
      var g := cfg.greetings.value;
      var lc := ToLower(user.username);
      match GreetingChat(g, lc, user.mod, user.vip, first)
      case Thrown => Silent
      case Done(chat) =>
        var lines := ChatLines(target, chat, user.username, [], kc);
        match GreetingMedia(g, lc, user.mod, user.vip, first)
        case Thrown => Reaction(lines, [], [])
        case Done(media) =>
          Reaction(lines, MediaEffects(cfg, media, user.username, km), GreetingShoutOut(g, lc, target, user.username))
  }

  /** A greeting that goes through schedules a shout-out exactly when the user's own entry has
      a SHOUTOUT key. */
  lemma GreetingShoutOutOnlyOwnEntry(cfg: Config, flags: map<string, string>, target: string, user: User,
                                     first: bool, kc: nat, km: nat)
    requires GreetingsActive(cfg, flags) && !GreetingThrows(cfg, flags, user, first)
    ensures
      var lc := ToLower(user.username);
      var r := GreetingReaction(cfg, flags, target, user, first, kc, km);
      |r.delayed| == 1 <==> lc in cfg.greetings.value && cfg.greetings.value[lc].shoutout.Some?
  {
  }

  /** The chat greeting that goes out is the CHAT of the first key in priority order that has
      one, else that of `default`; nothing goes out when that CHAT is empty or missing. */
  lemma GreetingChatLine(cfg: Config, flags: map<string, string>, target: string, user: User,
                         first: bool, kc: nat, km: nat)
    requires GreetingsActive(cfg, flags) && target != []
    requires !GreetingThrows(cfg, flags, user, first)
    ensures
      var g := cfg.greetings.value;
      var lc := ToLower(user.username);
      var keys := GreetingKeys(lc, user.mod, user.vip, first);
      var chat := match FirstWithChat(g, keys)
                  case Some(k) => g[k].chat
                  case None => g[DefaultKey].chat;
      GreetingReaction(cfg, flags, target, user, first, kc, km).lines ==
        if chat.Some? && NonEmpty(chat.value) then [Render(Choose(chat.value, kc), user.username, [])] else []
  {
    var g := cfg.greetings.value;
    GreetingChatByPriority(g, ToLower(user.username), user.mod, user.vip, first);
  }

  // ---------------------------------------------------------------- first seen

  /** `runFirstSeen` greets: the sender is not the broadcaster and their lower-cased name is
      not yet in the seen list. */
  predicate IsNewlySeen(seen: seq<string>, user: User) {
    !user.broadcaster && ToLower(user.username) !in seen
  }

  /** The seen list after `runFirstSeen`. */
  function SeenAfter(seen: seq<string>, user: User): (r: seq<string>)
    ensures IsNewlySeen(seen, user) ==> r == seen + [ToLower(user.username)]
    ensures !IsNewlySeen(seen, user) ==> r == seen
  {
    if IsNewlySeen(seen, user) then seen + [ToLower(user.username)] else seen
  }

  /** A second message from the same sender greets nobody and leaves the list alone. */
  lemma SeenOnce(seen: seq<string>, user: User)
    ensures !IsNewlySeen(SeenAfter(seen, user), user)
    ensures SeenAfter(SeenAfter(seen, user), user) == SeenAfter(seen, user)
  {
  }

  /** `isFirstTimeChatter`: true unless the ledger file exists and contains the lower-cased
      name anywhere (as a substring, not as a line). `None` is a missing file. */
  predicate IsFirstTime(ledger: Option<string>, lc: string) {
    !(ledger.Some? && Contains(ledger.value, lc))
  }

  /** The ledger after `isFirstTimeChatter`: a first-time name is appended with a newline. */
  function LedgerAfter(ledger: Option<string>, lc: string): (r: Option<string>)
    ensures IsFirstTime(ledger, lc) ==>
      r == Some((if ledger.Some? then ledger.value else []) + lc + "\n")
    ensures !IsFirstTime(ledger, lc) ==> r == ledger
  {
    if IsFirstTime(ledger, lc) then Some((if ledger.Some? then ledger.value else []) + lc + "\n")
    else ledger
  }

  lemma ContainsAppended(pre: string, p: string, post: string)
    ensures Contains(pre + p + post, p)
  {
    var s := pre + p + post;
    assert s[|pre|..|pre| + |p|] == p;
    assert OccursAt(s, p, |pre|);
  }

  /** Once checked, a name is in the ledger: the next check finds it. */
  lemma LedgerRemembers(ledger: Option<string>, lc: string)
    ensures !IsFirstTime(LedgerAfter(ledger, lc), lc)
  {
    if IsFirstTime(ledger, lc) {
      ContainsAppended(if ledger.Some? then ledger.value else [], lc, "\n");
    }
  }

  // ---------------------------------------------------------------- admin commands

  /** The admin commands `runAdminCommand` knows, in the order it tests them. */
  datatype AdminCommand =
    | ClearSeen
    | Exit
    | ReloadConfig
    | DelSeen(name: string)
    | AddSeen(name: string)
    | TestGreeting(name: string)
    | GreetingsOn
    | GreetingsOff
    | UnknownAdmin

  /** `commandName.split(" ")[1]`: the text between the first and the second space (only
      asked of texts that have a space). */
  function SecondWord(text: string): (r: string)
    ensures ' ' !in r
  {
    var words := Split(text, ' ');
    if |words| >= 2 then words[1] else []
  }

  /** The if/else-if chain of `runAdminCommand`, on the sanitised message. */
  function ParseAdmin(text: string): (c: AdminCommand)
    ensures c.DelSeen? ==> StartsWith(text, "!!delSeen ") && c.name == SecondWord(text)
    ensures c.AddSeen? ==> StartsWith(text, "!!addSeen ") && c.name == SecondWord(text)
    ensures c.TestGreeting? ==> c.name == ReplaceFirst(SecondWord(text), "@", "")
    ensures c == ClearSeen <==> text == "!!clearSeen"
    ensures c == ReloadConfig <==> text == "!!reload"
    ensures c.DelSeen? <==> StartsWith(text, "!!delSeen ")
    ensures c.AddSeen? <==> StartsWith(text, "!!addSeen ")
    ensures c.TestGreeting? <==> StartsWith(text, "!!testGreeting ")
    ensures c == UnknownAdmin ==>
      (!StartsWith(text, "!!delSeen ") && !StartsWith(text, "!!addSeen ") && !StartsWith(text, "!!testGreeting ") &&
       text !in {"!!clearSeen", "!!exit", "!!reload", "!!greetingsOn", "!!greetingsOff"})
    ensures c == GreetingsOn <==> text == "!!greetingsOn"
    ensures c == GreetingsOff <==> text == "!!greetingsOff"
    ensures c == Exit <==> text == "!!exit"
  {
    // The exact commands and the three prefixes differ in their third character.
    assert StartsWith(text, "!!delSeen ") ==> text[2] == 'd';
    assert StartsWith(text, "!!addSeen ") ==> text[2] == 'a';
    assert StartsWith(text, "!!testGreeting ") ==> text[2] == 't';
    if text == "!!clearSeen" then ClearSeen
    else if text == "!!exit" then Exit
    else if text == "!!reload" then ReloadConfig
    else if StartsWith(text, "!!delSeen ") then
      assert text[2] == "!!delSeen "[2];
      DelSeen(SecondWord(text))
    else if StartsWith(text, "!!addSeen ") then
      assert text[2] == "!!addSeen "[2];
      AddSeen(SecondWord(text))
    else if StartsWith(text, "!!testGreeting ") then
      assert text[2] == "!!testGreeting "[2];
      TestGreeting(ReplaceFirst(SecondWord(text), "@", ""))
    else if text == "!!greetingsOn" then GreetingsOn
    else if text == "!!greetingsOff" then GreetingsOff
    else UnknownAdmin
  }

  /** The seen list after the `!!delSeen` loop as written: each removal shifts the next name
      into the current slot and the loop index then moves past it, so a name right after a
      removed one is kept even when it is the same name. */
  function DelSeenResult(seen: seq<string>, name: string): (r: seq<string>)
    ensures |r| <= |seen|
  {
    if seen == [] then []
    else if seen[0] != name then [seen[0]] + DelSeenResult(seen[1..], name)
    else if |seen| == 1 then []
    else [seen[1]] + DelSeenResult(seen[2..], name)
  }

  /** One step of the loop past an entry that is not the name. */
  lemma DelSeenKeepStep(done: seq<string>, rest: seq<string>, name: string)
    requires rest != [] && rest[0] != name
    ensures done + DelSeenResult(rest, name) == (done + [rest[0]]) + DelSeenResult(rest[1..], name)
  {
  }

  /** One step of the loop at the name: the next entry slides into its slot and is passed over. */
  lemma DelSeenDropStep(done: seq<string>, rest: seq<string>, name: string)
    requires |rest| >= 2 && rest[0] == name
    ensures done + DelSeenResult(rest, name) == (done + [rest[1]]) + DelSeenResult(rest[2..], name)
  {
  }

  /** The multiset of the result in terms of the first one or two entries. */
  lemma DelSeenMultiset(seen: seq<string>, name: string)
    requires seen != []
    ensures seen[0] != name ==>
      multiset(seen) == multiset{seen[0]} + multiset(seen[1..]) &&
      multiset(DelSeenResult(seen, name)) == multiset{seen[0]} + multiset(DelSeenResult(seen[1..], name))
    ensures seen[0] == name && |seen| >= 2 ==>
      multiset(seen) == multiset{name, seen[1]} + multiset(seen[2..]) &&
      multiset(DelSeenResult(seen, name)) == multiset{seen[1]} + multiset(DelSeenResult(seen[2..], name))
  {
    if seen[0] != name {
      assert seen == [seen[0]] + seen[1..];
    } else if |seen| >= 2 {
      assert seen == [seen[0], seen[1]] + seen[2..];
    }
  }

  /** `!!delSeen` adds no entry. */
  lemma {:induction false} DelSeenShrinks(seen: seq<string>, name: string)
    ensures multiset(DelSeenResult(seen, name)) <= multiset(seen)
    decreases |seen|
  {
    if seen == [] {
    } else if seen[0] != name {
      DelSeenMultiset(seen, name);
      DelSeenShrinks(seen[1..], name);
    } else if |seen| == 1 {
    } else {
      DelSeenMultiset(seen, name);
      DelSeenShrinks(seen[2..], name);
    }
  }

  /** `!!delSeen` removes only copies of the name: every other entry keeps its count. */
  lemma {:induction false} DelSeenKeepsOthers(seen: seq<string>, name: string, x: string)
    requires x != name
    ensures multiset(DelSeenResult(seen, name))[x] == multiset(seen)[x]
    decreases |seen|
  {
    if seen == [] {
    } else if seen[0] != name {
      DelSeenMultiset(seen, name);
      DelSeenKeepsOthers(seen[1..], name, x);
    } else if |seen| == 1 {
      assert seen == [name];
    } else {
      DelSeenMultiset(seen, name);
      DelSeenKeepsOthers(seen[2..], name, x);
    }
  }

  /** No two adjacent entries are both `name`. */
  predicate NoAdjacent(seen: seq<string>, name: string) {
    forall i :: 0 <= i < |seen| - 1 ==> !(seen[i] == name && seen[i + 1] == name)
  }

  /** When no two adjacent entries are the name, `!!delSeen` removes every occurrence. */
  lemma {:induction false} DelSeenRemovesAll(seen: seq<string>, name: string)
    requires NoAdjacent(seen, name)
    ensures name !in DelSeenResult(seen, name)
    decreases |seen|
  {
    if seen == [] {
    } else if seen[0] != name {
      assert NoAdjacent(seen[1..], name) by {
        forall i | 0 <= i < |seen[1..]| - 1 ensures !(seen[1..][i] == name && seen[1..][i + 1] == name) {
          assert seen[1..][i] == seen[i + 1] && seen[1..][i + 1] == seen[i + 2];
        }
      }
      DelSeenRemovesAll(seen[1..], name);
    } else if |seen| == 1 {
    } else {
      assert seen[1] != name;
      assert NoAdjacent(seen[2..], name) by {
        forall i | 0 <= i < |seen[2..]| - 1 ensures !(seen[2..][i] == name && seen[2..][i + 1] == name) {
          assert seen[2..][i] == seen[i + 2] && seen[2..][i + 1] == seen[i + 3];
        }
      }
      DelSeenRemovesAll(seen[2..], name);
    }
  }

  /** Two adjacent copies of the name: `!!delSeen` removes only the first. */
  lemma DelSeenSkipsAdjacent(name: string, rest: seq<string>)
    ensures DelSeenResult([name, name] + rest, name) == [name] + DelSeenResult(rest, name)
  {
    assert ([name, name] + rest)[2..] == rest;
  }

  // ---------------------------------------------------------------- user commands

  datatype CounterOp = Inc | Dec | Set | Query

  /** The built-in user commands `runUserCommand` tests, in order; at most one runs. */
  datatype UserCommand = Audio | Dice | Timer | Counter(op: CounterOp) | NoUserCommand

  /** The if/else-if chain of `runUserCommand`, on the sanitised message. */
  function ParseUser(text: string, flags: map<string, string>): (c: UserCommand)
    ensures c == Audio <==> text == "!audio"
    ensures c == Dice <==> text == "!dice" && IsFeatureEnabled(flags, "dice")
    ensures c == Timer <==> StartsWith(text, "!timer ")
    ensures c.Counter? ==> IsFeatureEnabled(flags, "counter") && |text| >= 2 && text[0] == '!'
    ensures c == Counter(Inc) <==> StartsWith(text, "!+") && IsFeatureEnabled(flags, "counter")
    ensures c == Counter(Dec) <==> StartsWith(text, "!-") && IsFeatureEnabled(flags, "counter")
    ensures c == Counter(Set) <==> StartsWith(text, "!=") && IsFeatureEnabled(flags, "counter")
    ensures c == Counter(Query) <==> StartsWith(text, "!?") && IsFeatureEnabled(flags, "counter")
  {
    // The commands differ in their second character.
    assert StartsWith(text, "!timer ") ==> text[1] == 't';
    assert StartsWith(text, "!+") ==> text[1] == '+';
    assert StartsWith(text, "!-") ==> text[1] == '-';
    assert StartsWith(text, "!=") ==> text[1] == '=';
    assert StartsWith(text, "!?") ==> text[1] == '?';
    if text == "!audio" then Audio
    else if text == "!dice" && IsFeatureEnabled(flags, "dice") then Dice
    else if StartsWith(text, "!timer ") then Timer
    else if StartsWith(text, "!+") && IsFeatureEnabled(flags, "counter") then Counter(Inc)
    else if StartsWith(text, "!-") && IsFeatureEnabled(flags, "counter") then Counter(Dec)
    else if StartsWith(text, "!=") && IsFeatureEnabled(flags, "counter") then Counter(Set)
    else if StartsWith(text, "!?") && IsFeatureEnabled(flags, "counter") then Counter(Query)
    else NoUserCommand
  }

  /** The file played by `!audio`. */
  const ScreamFile := "wilhelmscream.mp3"

  /** The line `runRollDice` sends for a roll. */
  function DiceLine(roll: int, username: string): string {
    "You rolled a " + IntToString(roll) + ", " + username
  }

  /** `s.substring(2)`: empty when `s` is shorter. */
  function Substring2(s: string): string {
    if |s| >= 2 then s[2..] else []
  }

  /** `Number(args[2])` as an integer, `None` standing for NaN: a missing third piece is NaN. */
  function NumberArg(args: seq<string>): Option<int> {
    if |args| > 2 then ParseNumber(args[2]) else None
  }

  /** The counter a counter command names: `getCounterName(args[0].substring(2))`. */
  function CounterNameOf(args: seq<string>): (r: string)
    requires |args| >= 1
    ensures forall i :: 0 <= i < |r| ==> IsCounterChar(r[i])
  {
    CounterName(Substring2(args[0]))
  }

  /** The value a counter command announces, from the counter's current value and the
      numeric argument: increment and decrement default the offset to 1, decrement floors at 0,
      set defaults to 0, query keeps the value. */
  function CounterValue(op: CounterOp, current: int, arg: Option<int>): (v: int)
    ensures op == Dec ==> v >= 0
    ensures op == Query ==> v == current
    ensures op == Inc ==> v == current + (if arg.Some? then arg.value else 1)
    ensures op == Dec ==> v == if current - (if arg.Some? then arg.value else 1) > 0
                                then current - (if arg.Some? then arg.value else 1) else 0
    ensures op == Dec && v > 0 ==> v == current - (if arg.Some? then arg.value else 1)
    ensures op == Set ==> v == if arg.Some? then arg.value else 0
  {
    var offset := if arg.Some? then arg.value else 1;
    match op
    case Inc => current + offset
    case Dec => if current - offset > 0 then current - offset else 0
    case Set => if arg.Some? then arg.value else 0
    case Query => current
  }

  /** `counterRead`: a missing counter file reads as 0. */
  function CounterRead(counters: map<string, int>, name: string): int {
    if name in counters then counters[name] else 0
  }

  /** The counters after a counter command: every command but a query writes the announced
      value back, and no other counter changes. */
  function CountersAfter(counters: map<string, int>, op: CounterOp, name: string, arg: Option<int>)
    : (r: map<string, int>)
    ensures op != Query ==> name in r && r[name] == CounterValue(op, CounterRead(counters, name), arg)
    ensures op == Query ==> r == counters
    ensures forall n :: n != name ==> (n in r <==> n in counters) && (n in r ==> r[n] == counters[n])
  {
    if op == Query then counters
    else counters[name := CounterValue(op, CounterRead(counters, name), arg)]
  }

  /** The announcement `counterSay` sends. */
  function CounterLine(name: string, value: int): string {
    "Counter " + name + " is currently " + IntToString(value)
  }

  /** The announced value is the value read back from the counter afterwards, and the text
      written to the counter file parses back to it. */
  lemma CounterAnnouncedIsStored(counters: map<string, int>, op: CounterOp, name: string, arg: Option<int>)
    ensures
      var v := CounterValue(op, CounterRead(counters, name), arg);
      CounterRead(CountersAfter(counters, op, name, arg), name) == v &&
      ParseNumber(IntToString(v)) == Some(v)
  {
    ParseIntToString(CounterValue(op, CounterRead(counters, name), arg));
  }

  /** `!+name n` adds `n` (1 without a number) to the stored value, `!-name n` subtracts it
      and floors at 0, `!=name n` stores `n` (0 without a number), and `!?name` stores nothing;
      a counter that was never written counts from 0. */
  lemma CountersAfterStores(counters: map<string, int>, name: string, arg: Option<int>)
    ensures
      var old_ := CounterRead(counters, name);
      var offset := if arg.Some? then arg.value else 1;
      CounterRead(CountersAfter(counters, Inc, name, arg), name) == old_ + offset &&
      CounterRead(CountersAfter(counters, Dec, name, arg), name) == (if old_ - offset > 0 then old_ - offset else 0) &&
      CounterRead(CountersAfter(counters, Set, name, arg), name) == (if arg.Some? then arg.value else 0) &&
      CountersAfter(counters, Query, name, arg) == counters
  {
  }

  /** The timer length `runTimer` accepts: a present, non-empty, numeric third piece. */
  function TimerMinutes(args: seq<string>): (r: Option<int>)
    ensures r.Some? ==> |args| > 2 && args[2] != [] && ParseNumber(args[2]) == r
    ensures |args| > 2 && AllDigits(args[2]) && args[2] != [] ==> r == Some(DigitsValue(args[2]))
    ensures |args| <= 2 || args[2] == [] ==> r.None?
  {
    if |args| <= 2 || args[2] == [] then None else ParseNumber(args[2])
  }

  /** The timer name: the fifth piece onwards joined back together, when the fifth piece is
      present and non-empty. */
  function TimerName(args: seq<string>): string {
    if |args| > 4 && args[4] != [] then Concat(args[4..]) else []
  }

  const TimerError := "Missing or invalid timer length in minutes"

  /** What `runTimer` emits: nothing with the timer feature off; the error line for a bad
      length; else the start line and the alert, due after the length in milliseconds. */
  function TimerReaction(flags: map<string, string>, target: string, username: string, args: seq<string>)
    : (r: Reaction)
    ensures !IsFeatureEnabled(flags, "timer") ==> r == Silent
    ensures IsFeatureEnabled(flags, "timer") ==> |r.lines| == 1 && r.effects == []
    ensures IsFeatureEnabled(flags, "timer") && TimerMinutes(args).None? ==>
      r.lines == [TimerError] && r.delayed == []
    ensures |r.delayed| == 1 <==> IsFeatureEnabled(flags, "timer") && TimerMinutes(args).Some?
    ensures |r.delayed| == 1 ==>
      r.delayed[0] == TimerAlertDue(TimerMinutes(args).value * 60000, target, username, TimerName(args))
    ensures |r.delayed| == 1 ==>
      r.lines == ["Starting timer '" + TimerName(args) + "' for " + IntToString(TimerMinutes(args).value * 60000) + "ms"]
  {
    if !IsFeatureEnabled(flags, "timer") then Silent
    else match TimerMinutes(args)
      case None => Reaction([TimerError], [], [])
      case Some(n) =>
        var ms := n * 60000;
        var name := TimerName(args);
        Reaction(["Starting timer '" + name + "' for " + IntToString(ms) + "ms"], [],
                 [TimerAlertDue(ms, target, username, name)])
  }

  /** What a due `!timer` alert emits, with TIMER_ALERT read when it fires: its CHAT and its
      MEDIA, each with the first TIMERNAME replaced by the timer's name. */
  function TimerAlertReaction(cfg: Config, target: string, username: string, name: string): (r: Reaction)
    ensures cfg.timerAlert.None? ==> r == Silent
    ensures r.delayed == [] && |r.lines| <= 1 && |r.effects| <= 1
    ensures |r.lines| == 1 ==>
      cfg.timerAlert.Some? && cfg.timerAlert.value.chat.Some? &&
      r.lines[0] == Render(ReplaceFirst(cfg.timerAlert.value.chat.value, "TIMERNAME", name), username, [])
  {
    match cfg.timerAlert
    case None => Silent
    case Some(alert) =>
      var lines := if alert.chat.Some? then
          ChatLines(target, Some(Text(ReplaceFirst(alert.chat.value, "TIMERNAME", name))), username, [], 0)
        else [];
      var effects := if alert.media.Some? then
          MediaEffects(cfg, Some(Text(ReplaceFirst(alert.media.value, "TIMERNAME", name))), username, 0)
        else [];
      Reaction(lines, effects, [])
  }

  // ---------------------------------------------------------------- forbidden phrases

  /** Senders the forbidden-phrase scan leaves alone: moderators and VIPs unless the
      "forbiddenForModsVIPs" flag is set, and always the broadcaster. */
  predicate ForbiddenExempt(flags: map<string, string>, user: User)
    ensures user.broadcaster ==> ForbiddenExempt(flags, user)
    ensures IsFeatureEnabled(flags, "forbiddenForModsVIPs") ==> (ForbiddenExempt(flags, user) <==> user.broadcaster)
    ensures !user.mod && !user.vip ==> (ForbiddenExempt(flags, user) <==> user.broadcaster)
    ensures !IsFeatureEnabled(flags, "forbiddenForModsVIPs") && (user.mod || user.vip) ==> ForbiddenExempt(flags, user)
  {
    (!IsFeatureEnabled(flags, "forbiddenForModsVIPs") && (user.mod || user.vip)) || user.broadcaster
  }

  /** The moderation line for a TIMEOUT entry. */
  function TimeoutCommand(username: string, seconds: string): string {
    "/timeout " + username + " " + seconds
  }

  /** The moderation line for a BAN entry. */
  function BanCommand(username: string): string {
    "/ban " + username
  }

  /** The lines one matching forbidden rule sends, in order: its CHAT, the timeout, the ban;
      each goes through `sendChat` with the match's captures. */
  function ForbiddenRuleLines(target: string, username: string, rule: Rule, caps: seq<string>, k: nat)
    : (r: seq<string>)
    ensures |r| <= 3
    ensures target == [] ==> r == []
  {
    ChatLines(target, rule.chat, username, caps, k)
    + (if rule.timeout.Some? then
         ChatLines(target, Some(Text(TimeoutCommand(username, rule.timeout.value))), username, caps, 0)
       else [])
    + (if rule.ban then ChatLines(target, Some(Text(BanCommand(username))), username, caps, 0) else [])
  }

  /** A rule with CHAT, TIMEOUT and BAN sends exactly three lines in that order. */
  lemma ForbiddenRuleOrder(target: string, username: string, rule: Rule, caps: seq<string>, k: nat)
    requires target != [] && rule.chat.Some? && NonEmpty(rule.chat.value)
    requires rule.timeout.Some? && rule.ban
    ensures ForbiddenRuleLines(target, username, rule, caps, k) ==
      [Render(Choose(rule.chat.value, k), username, caps),
       Render(TimeoutCommand(username, rule.timeout.value), username, caps),
       Render(BanCommand(username), username, caps)]
  {
  }

  /** The lines the forbidden-phrase scan sends for the rules in order, `picks[i]` being the
      draw for rule `i`'s CHAT. */
  function ForbiddenLines(matcher: (string, string) -> Option<seq<string>>, rules: seq<(string, Rule)>,
                          target: string, username: string, text: string, picks: seq<nat>): (r: seq<string>)
    requires |picks| == |rules|
    ensures |r| <= 3 * |rules|
    decreases |rules|
  {
    if rules == [] then []
    else
      var n := |rules| - 1;
      var rest := ForbiddenLines(matcher, rules[..n], target, username, text, picks[..n]);
      match matcher(rules[n].0, text)
      case None => rest
      case Some(caps) => rest + ForbiddenRuleLines(target, username, rules[n].1, caps, picks[n])
  }

  /** The scan over one more rule appends that rule's lines when its pattern matches. */
  lemma ForbiddenLinesSnoc(matcher: (string, string) -> Option<seq<string>>, rules: seq<(string, Rule)>,
                           target: string, username: string, text: string, picks: seq<nat>, i: nat, k: nat)
    requires i < |rules| && |picks| == i
    ensures matcher(rules[i].0, text).None? ==>
      ForbiddenLines(matcher, rules[..i + 1], target, username, text, picks + [k]) ==
      ForbiddenLines(matcher, rules[..i], target, username, text, picks)
    ensures matcher(rules[i].0, text).Some? ==>
      ForbiddenLines(matcher, rules[..i + 1], target, username, text, picks + [k]) ==
      ForbiddenLines(matcher, rules[..i], target, username, text, picks) +
      ForbiddenRuleLines(target, username, rules[i].1, matcher(rules[i].0, text).value, k)
  {
    assert rules[..i + 1][..i] == rules[..i];
    assert (picks + [k])[..i] == picks;
  }

  /** A matching rule with a BAN key sends the ban line. */
  lemma ForbiddenRuleBans(target: string, username: string, rule: Rule, caps: seq<string>, k: nat)
    requires target != [] && rule.ban
    ensures Render(BanCommand(username), username, caps) in ForbiddenRuleLines(target, username, rule, caps, k)
  {
    var ban := ChatLines(target, Some(Text(BanCommand(username))), username, caps, 0);
    assert ban == [Render(BanCommand(username), username, caps)];
  }

  /** Every matching rule with a BAN key bans the sender. */
  lemma {:induction false} ForbiddenBans(matcher: (string, string) -> Option<seq<string>>,
                                         rules: seq<(string, Rule)>, target: string, username: string,
                                         text: string, picks: seq<nat>, i: nat)
    requires |picks| == |rules| && i < |rules| && target != []
    requires rules[i].1.ban && matcher(rules[i].0, text).Some?
    ensures Render(BanCommand(username), username, matcher(rules[i].0, text).value)
            in ForbiddenLines(matcher, rules, target, username, text, picks)
    decreases |rules|
  {
    var n := |rules| - 1;
    assert rules[..n + 1] == rules && picks[..n] + [picks[n]] == picks;
    ForbiddenLinesSnoc(matcher, rules, target, username, text, picks[..n], n, picks[n]);
    if i < n {
      assert rules[..n][i] == rules[i];
      ForbiddenBans(matcher, rules[..n], target, username, text, picks[..n], i);
    } else {
      ForbiddenRuleBans(target, username, rules[n].1, matcher(rules[n].0, text).value, picks[n]);
    }
  }

  // ---------------------------------------------------------------- triggered messages

  /** The gate inside the triggered-message loop: a `!!` message from a named sender who is
      not an admin ends the whole scan. */
  predicate TriggerGate(cfg: Config, user: User, text: string)
    ensures TriggerGate(cfg, user, text) ==> StartsWith(text, "!!") && !IsAdmin(cfg, user.username)
    ensures StartsWith(text, "!!") && user.username != [] ==> (TriggerGate(cfg, user, text) <==> !IsAdmin(cfg, user.username))
    ensures !StartsWith(text, "!!") || user.username == [] ==> !TriggerGate(cfg, user, text)
  {
    StartsWith(text, "!!") && user.username != [] && ToLower(user.username) !in cfg.adminUsers
  }

  /** What one matching trigger emits: its CHAT with the captures, its MEDIA, and its SHOUTOUT
      with the captures, five seconds later. */
  function TriggerRuleReaction(cfg: Config, target: string, username: string, rule: Rule,
                               caps: seq<string>, kc: nat, km: nat): (r: Reaction)
    ensures |r.delayed| == 1 <==> rule.shoutout.Some?
    ensures |r.delayed| == 1 ==> r.delayed[0] == ShoutOut(ShoutOutDelayMs, target, username, rule.shoutout.value, caps)
  {
    Reaction(ChatLines(target, rule.chat, username, caps, kc),
             MediaEffects(cfg, rule.media, username, km),
             if rule.shoutout.Some? then [ShoutOut(ShoutOutDelayMs, target, username, rule.shoutout.value, caps)] else [])
  }

  /** What the triggered-message scan emits over the rules in order, `picks[i]` holding rule
      `i`'s draws for CHAT and MEDIA (the gate aside). */
  function TriggerReaction(matcher: (string, string) -> Option<seq<string>>, cfg: Config,
                           rules: seq<(string, Rule)>, target: string, username: string, text: string,
                           picks: seq<(nat, nat)>): (r: Reaction)
    requires |picks| == |rules|
    ensures |r.lines| <= |rules| && |r.effects| <= |rules| && |r.delayed| <= |rules|
    decreases |rules|
  {
    if rules == [] then Silent
    else
      var n := |rules| - 1;
      var rest := TriggerReaction(matcher, cfg, rules[..n], target, username, text, picks[..n]);
      match matcher(rules[n].0, text)
      case None => rest
      case Some(caps) => Then(rest, TriggerRuleReaction(cfg, target, username, rules[n].1, caps, picks[n].0, picks[n].1))
  }

  /** The scan over one more rule adds that rule's reaction when its pattern matches. */
  lemma TriggerReactionSnoc(matcher: (string, string) -> Option<seq<string>>, cfg: Config,
                            rules: seq<(string, Rule)>, target: string, username: string, text: string,
                            picks: seq<(nat, nat)>, i: nat, kc: nat, km: nat)
    requires i < |rules| && |picks| == i
    ensures matcher(rules[i].0, text).None? ==>
      TriggerReaction(matcher, cfg, rules[..i + 1], target, username, text, picks + [(kc, km)]) ==
      TriggerReaction(matcher, cfg, rules[..i], target, username, text, picks)
    ensures matcher(rules[i].0, text).Some? ==>
      TriggerReaction(matcher, cfg, rules[..i + 1], target, username, text, picks + [(kc, km)]) ==
      Then(TriggerReaction(matcher, cfg, rules[..i], target, username, text, picks),
           TriggerRuleReaction(cfg, target, username, rules[i].1, matcher(rules[i].0, text).value, kc, km))
  {
    assert rules[..i + 1][..i] == rules[..i];
    assert (picks + [(kc, km)])[..i] == picks;
  }

  /** Rules whose pattern does not match emit nothing. */
  lemma {:induction false} TriggerNoMatchSilent(matcher: (string, string) -> Option<seq<string>>, cfg: Config,
                                                rules: seq<(string, Rule)>, target: string, username: string,
                                                text: string, picks: seq<(nat, nat)>)
    requires |picks| == |rules|
    requires forall i :: 0 <= i < |rules| ==> matcher(rules[i].0, text).None?
    ensures TriggerReaction(matcher, cfg, rules, target, username, text, picks) == Silent
    decreases |rules|
  {
    if rules != [] {
      var n := |rules| - 1;
      assert forall i :: 0 <= i < n ==> rules[..n][i] == rules[i];
      TriggerNoMatchSilent(matcher, cfg, rules[..n], target, username, text, picks[..n]);
    }
  }

  // ---------------------------------------------------------------- random lines and image links

  /** What `runRandomFileLineCommands` sends: for a message that is exactly a configured
      command whose file exists, one line of that file (`k` is the draw). */
  function RandomLine(cfg: Config, files: map<string, string>, text: string, k: nat): (r: seq<string>)
    ensures |r| <= 1
    ensures |r| == 1 <==> text in cfg.randomLineCommands && cfg.randomLineCommands[text] in files
    ensures |r| == 1 ==> r[0] in SplitLines(files[cfg.randomLineCommands[text]])
  {
    if text in cfg.randomLineCommands && cfg.randomLineCommands[text] in files then
      var lines := SplitLines(files[cfg.randomLineCommands[text]]);
      [lines[k % |lines|]]
    else []
  }

  /** A draw already in range sends that very line. */
  lemma RandomLineAt(cfg: Config, files: map<string, string>, text: string, k: nat)
    requires text in cfg.randomLineCommands && cfg.randomLineCommands[text] in files
    requires k < |SplitLines(files[cfg.randomLineCommands[text]])|
    ensures RandomLine(cfg, files, text, k) == [SplitLines(files[cfg.randomLineCommands[text]])[k]]
  {
    ModOfSmaller(k, |SplitLines(files[cfg.randomLineCommands[text]])|);
  }

  /** `a` and `b` have the same length and agree wherever `pattern` is not a '.', which in a
      regular expression matches any character but a line terminator. */
  predicate DotMatch(s: string, pattern: string) {
    |s| == |pattern| &&
    forall i :: 0 <= i < |s| ==> (if pattern[i] == '.' then !IsLineTerminator(s[i]) else s[i] == pattern[i])
  }

  predicate IsAlnum(c: char) {
    'a' <= c <= 'z' || 'A' <= c <= 'Z' || '0' <= c <= '9'
  }

  const GiphyHead := "https://media.giphy.com/media/"
  const GiphyTail := "/giphy.gif"
  const GiphyLargeTail := "/giphy-downsized-large.gif"

  /** The whole message is `head` + `[a-zA-Z0-9]*` + `tail`, with the dots of the fixed parts
      matching any character. */
  predicate MatchesLink(s: string, tail: string) {
    |s| >= |GiphyHead| + |tail| &&
    DotMatch(s[..|GiphyHead|], GiphyHead) &&
    DotMatch(s[|s| - |tail|..], tail) &&
    forall i :: |GiphyHead| <= i < |s| - |tail| ==> IsAlnum(s[i])
  }

  /** A link matched with a tail free of line terminators holds none: the regular-expression
      dot and the alphanumeric run never match one. */
  lemma MatchesLinkOneLine(s: string, tail: string)
    requires forall i :: 0 <= i < |tail| ==> !IsLineTerminator(tail[i])
    ensures MatchesLink(s, tail) ==> forall i :: 0 <= i < |s| ==> !IsLineTerminator(s[i])
  {
    if MatchesLink(s, tail) {
      forall i | 0 <= i < |s| ensures !IsLineTerminator(s[i]) {
        if i < |GiphyHead| {
          assert s[..|GiphyHead|][i] == s[i];
        } else if i >= |s| - |tail| {
          assert s[|s| - |tail|..][i - (|s| - |tail|)] == s[i];
        }
      }
    }
  }

  /** The anchored image-link pattern of `runImageLink`. */
  predicate IsGiphyLink(s: string)
    ensures IsGiphyLink(s) ==> |s| >= |GiphyHead| + |GiphyTail| && s[|s| - 3..] == "gif"
    ensures IsGiphyLink(s) ==> forall i :: 0 <= i < |s| ==> !IsLineTerminator(s[i])
  {
    MatchesLinkOneLine(s, GiphyTail);
    MatchesLinkOneLine(s, GiphyLargeTail);
    MatchesLink(s, GiphyTail) || MatchesLink(s, GiphyLargeTail)
  }

  /** The page `runImageLink` writes for a link. */
  function ImagePopup(link: string): string {
    "<img src=\"" + link + "\" width=\"100%\" height=\"100%\">"
  }

  // ---------------------------------------------------------------- periodic messages

  /** What a periodic message emits each time it fires: its CHAT and MEDIA to the bot's
      channel, with no user name. */
  function PeriodicReaction(cfg: Config, channel: string, m: PeriodicMessage, kc: nat, km: nat): (r: Reaction)
    ensures r.delayed == [] && |r.lines| <= 1 && |r.effects| <= 1
    ensures |r.lines| == 1 <==> channel != [] && m.chat.Some? && NonEmpty(m.chat.value)
  {
    Reaction(ChatLines(channel, m.chat, "", [], kc), MediaEffects(cfg, m.media, "", km), [])
  }

  /** Without a user name, USERNAME stays in a periodic message. */
  lemma PeriodicKeepsUserName(cfg: Config, channel: string, text: string, kc: nat, km: nat)
    requires channel != [] && text != []
    ensures PeriodicReaction(cfg, channel, PeriodicMessage(0, Some(Text(text)), None), kc, km).lines == [text]
  {
  }

  // ---------------------------------------------------------------- the scans after a command

  /** What the last four steps of the message handler emit, in order: the forbidden-phrase
      lines (none for an exempt sender), the triggered messages (none when the gate ends the
      scan at its first rule), and the random file line. `pf`, `pt` and `kr` are their draws. */
  function ScanReaction(matcher: (string, string) -> Option<seq<string>>, cfg: Config,
                        flags: map<string, string>, files: map<string, string>, target: string,
                        user: User, text: string, pf: seq<nat>, pt: seq<(nat, nat)>, kr: nat): (r: Reaction)
    requires !ForbiddenExempt(flags, user) ==> |pf| == |cfg.forbidden|
    requires !(TriggerGate(cfg, user, text) && cfg.triggers != []) ==> |pt| == |cfg.triggers|
    ensures |r.effects| <= |cfg.triggers| && |r.delayed| <= |cfg.triggers|
    ensures |r.lines| <= 3 * |cfg.forbidden| + |cfg.triggers| + 1
  {
    var forbidden := if ForbiddenExempt(flags, user) then []
                     else ForbiddenLines(matcher, cfg.forbidden, target, user.username, text, pf);
    var triggered := if TriggerGate(cfg, user, text) && cfg.triggers != [] then Silent
                     else TriggerReaction(matcher, cfg, cfg.triggers, target, user.username, text, pt);
    Then(Then(Reaction(forbidden, [], []), triggered), Reaction(RandomLine(cfg, files, text, kr), [], []))
  }

  /** `ScanReaction` assembled from the forbidden-phrase lines `f` and the triggered reaction
      `t`. */
  lemma ScanReactionParts(matcher: (string, string) -> Option<seq<string>>, cfg: Config,
                          flags: map<string, string>, files: map<string, string>, target: string,
                          user: User, text: string, pf: seq<nat>, pt: seq<(nat, nat)>, kr: nat,
                          f: seq<string>, t: Reaction)
    requires !ForbiddenExempt(flags, user) ==> |pf| == |cfg.forbidden| && f == ForbiddenLines(matcher, cfg.forbidden, target, user.username, text, pf)
    requires ForbiddenExempt(flags, user) ==> f == []
    requires !(TriggerGate(cfg, user, text) && cfg.triggers != []) ==>
      |pt| == |cfg.triggers| && t == TriggerReaction(matcher, cfg, cfg.triggers, target, user.username, text, pt)
    requires TriggerGate(cfg, user, text) && cfg.triggers != [] ==> t == Silent
    ensures ScanReaction(matcher, cfg, flags, files, target, user, text, pf, pt, kr) ==
      Reaction(f + t.lines + RandomLine(cfg, files, text, kr), t.effects, t.delayed)
  {
    var random := Reaction(RandomLine(cfg, files, text, kr), [], []);
    assert ScanReaction(matcher, cfg, flags, files, target, user, text, pf, pt, kr) ==
      Then(Then(Reaction(f, [], []), t), random);
    assert [] + t.effects + [] == t.effects && [] + t.delayed + [] == t.delayed;
  }

  /** Forbidden rules whose pattern does not match send nothing. */
  lemma {:induction false} ForbiddenNoMatchSilent(matcher: (string, string) -> Option<seq<string>>,
                                                  rules: seq<(string, Rule)>, target: string, username: string,
                                                  text: string, picks: seq<nat>)
    requires |picks| == |rules|
    requires forall i :: 0 <= i < |rules| ==> matcher(rules[i].0, text).None?
    ensures ForbiddenLines(matcher, rules, target, username, text, picks) == []
    decreases |rules|
  {
    if rules != [] {
      var n := |rules| - 1;
      assert forall i :: 0 <= i < n ==> rules[..n][i] == rules[i];
      ForbiddenNoMatchSilent(matcher, rules[..n], target, username, text, picks[..n]);
    }
  }

  /** A message that matches no forbidden or triggered pattern and is no random-line command
      gets no reaction from the scans. */
  lemma ScanQuietWithoutMatches(matcher: (string, string) -> Option<seq<string>>, cfg: Config,
                                flags: map<string, string>, files: map<string, string>, target: string,
                                user: User, text: string, pf: seq<nat>, pt: seq<(nat, nat)>, kr: nat)
    requires |pf| == |cfg.forbidden| && |pt| == |cfg.triggers|
    requires forall i :: 0 <= i < |cfg.forbidden| ==> matcher(cfg.forbidden[i].0, text).None?
    requires forall i :: 0 <= i < |cfg.triggers| ==> matcher(cfg.triggers[i].0, text).None?
    requires text !in cfg.randomLineCommands
    ensures ScanReaction(matcher, cfg, flags, files, target, user, text, pf, pt, kr) == Silent
  {
    ForbiddenNoMatchSilent(matcher, cfg.forbidden, target, user.username, text, pf);
    TriggerNoMatchSilent(matcher, cfg, cfg.triggers, target, user.username, text, pt);
  }
}
