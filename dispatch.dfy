/** The bot itself: the process state the message handler reads and updates, and the handler
    with each of its steps, proved against the functions of `Commands`. */
module Dispatch {
  import opened Wrappers
  import opened Text
  import opened Names
  import opened Settings
  import opened Responder
  import opened Commands

  /** A live `setInterval` registration: its handle, the periodic message it posts and its
      period in milliseconds. */
  datatype Interval = Interval(handle: nat, key: string, periodMs: int)

  /** What `loadConfigFile` finds on `!!reload`: the file does not load, it loads as an empty
      object (the configuration is kept), or it loads. */
  datatype LoadResult = LoadFailed | LoadedEmpty | Loaded(cfg: Config)

  const ReloadError := "Could not load configuration file, continuing with existing configuration."

  /** The intervals after `clearInterval(h)`. */
  function ClearHandle(xs: seq<Interval>, h: nat): (r: seq<Interval>)
    ensures forall i :: 0 <= i < |r| ==> r[i].handle != h && r[i] in xs
  {
    if xs == [] then []
    else if xs[0].handle == h then ClearHandle(xs[1..], h)
    else [xs[0]] + ClearHandle(xs[1..], h)
  }

  /** Clearing a handle that no interval has changes nothing. */
  lemma {:induction false} ClearHandleAbsent(xs: seq<Interval>, h: nat)
    requires forall i :: 0 <= i < |xs| ==> xs[i].handle != h
    ensures ClearHandle(xs, h) == xs
    decreases |xs|
  {
    if xs != [] {
      ClearHandleAbsent(xs[1..], h);
    }
  }

  /** Clearing the handle of the first interval, which no later interval shares, drops just
      that interval. */
  lemma ClearHandleHead(xs: seq<Interval>, h: nat)
    requires xs != [] && xs[0].handle == h
    requires forall i :: 1 <= i < |xs| ==> xs[i].handle != h
    ensures ClearHandle(xs, h) == xs[1..]
  {
    ClearHandleAbsent(xs[1..], h);
  }

  /** The intervals `runPeriodicMessages` registers, one per periodic message in order, with
      fresh handles from `next` on. */
  function PeriodicIntervals(ps: seq<(string, PeriodicMessage)>, next: nat): (r: seq<Interval>)
    ensures |r| == |ps|
    ensures forall i :: 0 <= i < |r| ==> r[i] == Interval(next + i, ps[i].0, ps[i].1.interval * 60000)
  {
    if ps == [] then []
    else [Interval(next, ps[0].0, ps[0].1.interval * 60000)] + PeriodicIntervals(ps[1..], next + 1)
  }

  /** `enableFeature` and `disableFeature` set one flag and leave the others as they were. */
  lemma FeatureToggle(flags: map<string, string>, name: string)
    ensures IsFeatureEnabled(flags[name := "true"], name)
    ensures !IsFeatureEnabled(flags[name := "false"], name)
    ensures forall n :: n != name ==>
      IsFeatureEnabled(flags[name := "true"], n) == IsFeatureEnabled(flags, n) &&
      IsFeatureEnabled(flags[name := "false"], n) == IsFeatureEnabled(flags, n)
  {
  }

  class Bot {
    /** The bot's own channel, `CHANNELS[0]`, where periodic messages go. */
    const channel: string
    /** The files `RANDOM_FILE_LINE_COMMANDS` may name, by path, with their contents. */
    const files: map<string, string>
    /** The regular-expression engine: `matcher(pattern, text)` is `text.match(new
        RegExp(pattern))`, the whole match first and then the groups. */
    const matcher: (string, string) -> Option<seq<string>>

    /** The loaded configuration (`env`) apart from its feature flags. */
    var config: Config
    /** `env.COMMANDS_FEATURE_FLAGS`, which the admin commands change in place. */
    var flags: map<string, string>
    /** Lower-cased names already greeted since start-up (or since `!!clearSeen`). */
    var seenUsers: seq<string>
    /** The `data/counter_<name>.txt` files, by counter name. */
    var counters: map<string, int>
    /** `data/all_chatters.txt`; `None` while it does not exist. */
    var ledger: Option<string>
    /** Every line sent with `client.say`, in order. */
    var outbox: seq<string>
    /** Every media action taken, in order. */
    var effects: seq<Effect>
    /** `data/giphy_popup.html`. */
    var popup: Option<string>
    /** Reactions waiting on `setTimeout`. */
    var pending: seq<Delayed>
    /** The live `setInterval` registrations. */
    var intervals: seq<Interval>
    /** `periodicMessageTimers`. */
    var periodicTimers: seq<nat>
    /** The next handle `setInterval` gives out. */
    var nextHandle: nat
    /** `process.exit` was called. */
    var exited: bool

    /** The only intervals alive are the ones `periodicTimers` lists, in the same order, with
        increasing handles already given out, and each posts a periodic message of the current
        configuration. */
    ghost predicate Valid()
      reads this`intervals, this`periodicTimers, this`nextHandle, this`config
    {
      TimersListed() &&
      forall i :: 0 <= i < |intervals| ==> HasPeriodic(config.periodic, intervals[i].key)
    }

    /** The intervals alive and `periodicTimers` are in step, with increasing handles. */
    ghost predicate TimersListed()
      reads this`intervals, this`periodicTimers, this`nextHandle
    {
      |intervals| == |periodicTimers| &&
      (forall i :: 0 <= i < |intervals| ==> intervals[i].handle == periodicTimers[i]) &&
      (forall i, j :: 0 <= i < j < |periodicTimers| ==> periodicTimers[i] < periodicTimers[j]) &&
      (forall i :: 0 <= i < |periodicTimers| ==> periodicTimers[i] < nextHandle)
    }

    /** Since the pre-state, exactly the reaction `r` was emitted. */
    twostate predicate Emitted(r: Reaction)
      reads this
    {
      outbox == old(outbox) + r.lines && effects == old(effects) + r.effects && pending == old(pending) + r.delayed
    }

    /** Start-up: the configuration is loaded and the periodic messages are registered. */
    constructor (channel: string, files: map<string, string>, matcher: (string, string) -> Option<seq<string>>,
                 cfg: Config, counters: map<string, int>, ledger: Option<string>)
      ensures Valid() && !exited
      ensures this.channel == channel && this.files == files && this.matcher == matcher
      ensures config == cfg && flags == cfg.flags && seenUsers == []
      ensures this.counters == counters && this.ledger == ledger
      ensures outbox == [] && effects == [] && pending == [] && popup == None
      ensures intervals == PeriodicIntervals(cfg.periodic, 0)
    {
      this.channel := channel;
      this.files := files;
      this.matcher := matcher;
      config := cfg;
      flags := cfg.flags;
      seenUsers := [];
      this.counters := counters;
      this.ledger := ledger;
      outbox := [];
      effects := [];
      popup := None;
      pending := [];
      intervals := [];
      periodicTimers := [];
      nextHandle := 0;
      exited := false;
      new;
      RunPeriodicMessages();
    }

    // ---------------------------------------------------------------- output primitives

    /** `sendChat`: draws the message, replaces the first USERNAME, then fills `_1_` ... `_9_`
        one after the other until a capture is missing or empty, and sends the result. */
    method SendChat(target: string, msg: Option<Payload>, username: string, caps: seq<string>)
      returns (ghost k: nat)
      modifies this`outbox
      ensures outbox == old(outbox) + ChatLines(target, msg, username, caps, k)
    {
      k := 0;
      if target != [] && msg.Some? && NonEmpty(msg.value) {
        var reply: string;
        match msg.value {
          case Text(t) =>
            reply := t;
          case Choices(l) =>
            var num :| 0 <= num < |l|;
            k := num;
            reply := l[num];
            ChooseAt(l, num);
        }
        assert reply == Choose(msg.value, k);
        if username != [] {
          reply := ReplaceFirst(reply, "USERNAME", username);
        }
        var index := 1;
        while index <= 9 && HasCapture(caps, index)
          invariant 1 <= index <= 10
          invariant Positional(reply, caps, index) == Render(Choose(msg.value, k), username, caps)
          decreases 10 - index
        {
          reply := ReplaceFirst(reply, Placeholder(index), caps[index]);
          index := index + 1;
        }
        outbox := outbox + [reply];
      }
    }

    /** `playMedia`: draws the entry, replaces the first USERNAME, and hands the file to the
        overlay page or to the media player. */
    method PlayMedia(media: Option<Payload>, username: string) returns (ghost k: nat)
      modifies this`effects
      ensures effects == old(effects) + MediaEffects(config, media, username, k)
    {
      k := 0;
      if media.Some? && NonEmpty(media.value) {
        var file: string;
        match media.value {
          case Text(t) =>
            file := t;
          case Choices(l) =>
            var num :| 0 <= num < |l|;
            k := num;
            file := l[num];
            ChooseAt(l, num);
        }
        assert file == Choose(media.value, k);
        if username != [] {
          file := ReplaceFirst(file, "USERNAME", username);
        }
        if config.audioFilePath {
          effects := effects + [PlayAudio(AudioFileName(file))];
        } else if config.mediaPlayerCommand != [] {
          effects := effects + [Launch(ReplaceFirst(config.mediaPlayerCommand, "MEDIAFILE", file))];
        }
      }
    }

    /** `sendShoutOut`: the command goes out through `sendChat` five seconds later. */
    method SendShoutOut(target: string, username: string, command: Payload, caps: seq<string>)
      modifies this`pending
      ensures pending == old(pending) + [ShoutOut(ShoutOutDelayMs, target, username, command, caps)]
    {
      pending := pending + [ShoutOut(ShoutOutDelayMs, target, username, command, caps)];
    }

    // ---------------------------------------------------------------- greeting and first seen

    /** `greetUser`: the chat greeting, the greeting media and the shout-out, stopping where a
        lookup of a missing entry throws. */
    method GreetUser(target: string, user: User, first: bool) returns (thrown: bool, ghost kc: nat, ghost km: nat)
      modifies this`outbox, this`effects, this`pending
      ensures thrown == GreetingThrows(config, flags, user, first)
      ensures Emitted(GreetingReaction(config, flags, target, user, first, kc, km))
    {
      thrown, kc, km := false, 0, 0;
      if config.greetings.Some? && IsFeatureEnabled(flags, "greetings") {
        var g := config.greetings.value;
        var lc := ToLower(user.username);
        var chat := GreetingChat(g, lc, user.mod, user.vip, first);
        if chat.Thrown? {
          thrown := true;
          return;
        }
        kc := SendChat(target, chat.value, user.username, []);
        var media := GreetingMedia(g, lc, user.mod, user.vip, first);
        if media.Thrown? {
          thrown := true;
          return;
        }
        km := PlayMedia(media.value, user.username);
        if lc in g && g[lc].shoutout.Some? {
          SendShoutOut(target, user.username, g[lc].shoutout.value, []);
        }
      }
    }

    /** `isFirstTimeChatter`: looks the lower-cased name up in the ledger and appends it when
        it is not there. */
    method IsFirstTimeChatter(username: string) returns (first: bool)
      modifies this`ledger
      ensures first == IsFirstTime(old(ledger), ToLower(username))
      ensures ledger == LedgerAfter(old(ledger), ToLower(username))
      ensures !IsFirstTime(ledger, ToLower(username))
    {
      var lc := ToLower(username);
      var all := "";
      if ledger.Some? {
        all := ledger.value;
        if Contains(all, lc) {
          return false;
        }
      }
      ledger := Some(all + lc + "\n");
      first := true;
      LedgerRemembers(old(ledger), lc);
    }

    /** `runFirstSeen`: a sender other than the broadcaster whose lower-cased name is not yet
        in the seen list is added to it once, checked against the ledger once, and greeted. */
    method RunFirstSeen(target: string, user: User) returns (thrown: bool, ghost first: bool, ghost kc: nat, ghost km: nat)
      modifies this`seenUsers, this`ledger, this`outbox, this`effects, this`pending
      ensures seenUsers == SeenAfter(old(seenUsers), user)
      ensures IsNewlySeen(old(seenUsers), user) ==>
        first == IsFirstTime(old(ledger), ToLower(user.username)) &&
        ledger == LedgerAfter(old(ledger), ToLower(user.username)) &&
        thrown == GreetingThrows(config, flags, user, first) &&
        Emitted(GreetingReaction(config, flags, target, user, first, kc, km))
      ensures !IsNewlySeen(old(seenUsers), user) ==> !thrown && ledger == old(ledger) && Emitted(Silent)
    {
      thrown, first, kc, km := false, false, 0, 0;
      if user.broadcaster {
        return;
      }
      var lc := ToLower(user.username);
      if lc !in seenUsers {
        seenUsers := seenUsers + [lc];
        var isFirst := IsFirstTimeChatter(user.username);
        first := isFirst;
        thrown, kc, km := GreetUser(target, user, isFirst);
      }
    }

    // ---------------------------------------------------------------- flags and timers

    /** `enableFeature`. */
    method EnableFeature(name: string)
      modifies this`flags
      ensures flags == old(flags)[name := "true"]
      ensures IsFeatureEnabled(flags, name)
    {
      flags := flags[name := "true"];
    }

    /** `disableFeature`. */
    method DisableFeature(name: string)
      modifies this`flags
      ensures flags == old(flags)[name := "false"]
      ensures !IsFeatureEnabled(flags, name)
    {
      flags := flags[name := "false"];
    }

    /** The first loop of `runPeriodicMessages`: `clearInterval` on every listed handle, then
        an empty list. With the lists in step, nothing stays alive. */
    method ClearPeriodicTimers()
      requires TimersListed()
      modifies this`intervals, this`periodicTimers
      ensures intervals == [] && periodicTimers == []
    {
      ghost var before, timers := intervals, periodicTimers;
      var i := 0;
      while i < |periodicTimers|
        invariant periodicTimers == timers
        invariant 0 <= i <= |periodicTimers|
        invariant intervals == before[i..]
      {
        var h := periodicTimers[i];
        assert forall m :: i < m < |before| ==> before[m].handle == timers[m] && timers[i] < timers[m];
        ClearHandleHead(intervals, h);
        intervals := ClearHandle(intervals, h);
        i := i + 1;
      }
      periodicTimers := [];
    }

    /** The second loop of `runPeriodicMessages`: one `setInterval` per periodic message, its
        handle pushed onto the list. */
    method RegisterPeriodicMessages()
      requires intervals == [] && periodicTimers == []
      modifies this`intervals, this`periodicTimers, this`nextHandle
      ensures nextHandle == old(nextHandle) + |config.periodic|
      ensures intervals == PeriodicIntervals(config.periodic, old(nextHandle))
      ensures |periodicTimers| == |config.periodic|
      ensures forall m :: 0 <= m < |periodicTimers| ==> periodicTimers[m] == old(nextHandle) + m
    {
      var j := 0;
      while j < |config.periodic|
        invariant 0 <= j <= |config.periodic|
        invariant nextHandle == old(nextHandle) + j
        invariant |intervals| == j && |periodicTimers| == j
        invariant forall m :: 0 <= m < j ==>
          intervals[m] == Interval(old(nextHandle) + m, config.periodic[m].0, config.periodic[m].1.interval * 60000) &&
          periodicTimers[m] == old(nextHandle) + m
      {
        var h := nextHandle;
        nextHandle := nextHandle + 1;
        intervals := intervals + [Interval(h, config.periodic[j].0, config.periodic[j].1.interval * 60000)];
        periodicTimers := periodicTimers + [h];
        j := j + 1;
      }
    }

    /** `runPeriodicMessages`: the intervals alive afterwards are exactly one per periodic
        message of the configuration, none of the earlier ones. */
    method RunPeriodicMessages()
      requires TimersListed()
      modifies this`intervals, this`periodicTimers, this`nextHandle
      ensures Valid()
      ensures intervals == PeriodicIntervals(config.periodic, old(nextHandle))
      ensures nextHandle == old(nextHandle) + |config.periodic|
      ensures forall x :: x in old(intervals) ==> x !in intervals
    {
      assert forall x :: x in intervals ==> x.handle < nextHandle;
      ClearPeriodicTimers();
      RegisterPeriodicMessages();
      assert forall m :: 0 <= m < |intervals| ==> HasPeriodic(config.periodic, intervals[m].key) by {
        forall m | 0 <= m < |intervals| ensures HasPeriodic(config.periodic, intervals[m].key) {
          assert config.periodic[m].0 == intervals[m].key;
        }
      }
    }

    /** What `!!reload` leaves behind: a loaded configuration replaces the old one and its
        flags; a file that loads the periodic messages again from the configuration now in
        force; a file that fails to load posts an error to the channel, or stops the bot when
        there is no channel. */
    twostate predicate Reloaded(load: LoadResult)
      reads this
    {
      (load.Loaded? ==> config == load.cfg && flags == load.cfg.flags) &&
      (!load.Loaded? ==> config == old(config) && flags == old(flags)) &&
      (!load.LoadFailed? ==>
         intervals == PeriodicIntervals(config.periodic, old(nextHandle)) && outbox == old(outbox) && exited == old(exited)) &&
      (load.LoadFailed? ==> intervals == old(intervals) && nextHandle == old(nextHandle)) &&
      (load.LoadFailed? && channel != [] ==> outbox == old(outbox) + [ReloadError] && exited == old(exited)) &&
      (load.LoadFailed? && channel == [] ==> outbox == old(outbox) && exited)
    }

    /** `loadConfigFile` on `!!reload`: a configuration that loads replaces the old one (flags
        included) and the periodic messages are registered again; one that fails leaves
        everything as it was and says so in the bot's channel. */
    method Reload(load: LoadResult)
      requires Valid()
      modifies this`config, this`flags, this`outbox, this`intervals, this`periodicTimers, this`nextHandle, this`exited
      ensures Valid()
      ensures Reloaded(load)
    {
      match load {
        case LoadFailed =>
          if channel != [] {
            outbox := outbox + [ReloadError];
          } else {
            exited := true;
          }
        case LoadedEmpty =>
          RunPeriodicMessages();
        case Loaded(c) =>
          config := c;
          flags := c.flags;
          RunPeriodicMessages();
      }
    }

    /** The `!!delSeen` loop: every entry equal to the name is spliced out while the index
        still moves on after each removal. */
    method DelSeenLoop(name: string)
      modifies this`seenUsers
      ensures seenUsers == DelSeenResult(old(seenUsers), name)
    {
      ghost var done: seq<string>, rest := [], seenUsers;
      var i := 0;
      while i < |seenUsers|
        invariant seenUsers == done + rest
        invariant DelSeenResult(old(seenUsers), name) == done + DelSeenResult(rest, name)
        invariant i == |done| || (i == |done| + 1 && rest == [])
        decreases |rest|
      {
        if seenUsers[i] == name {
          if |rest| >= 2 {
            DelSeenDropStep(done, rest, name);
            done, rest := done + [rest[1]], rest[2..];
          } else {
            rest := [];
          }
          seenUsers := seenUsers[..i] + seenUsers[i + 1..];
        } else {
          DelSeenKeepStep(done, rest, name);
          done, rest := done + [rest[0]], rest[1..];
        }
        i := i + 1;
      }
    }

    /** What an admin command other than `!!testGreeting` leaves behind: `!!reload` as
        `Reloaded` says; otherwise the seen list, the flags and the exit state changed as the
        command says and nothing else. No admin command plays media or schedules anything. */
    twostate predicate AdminApplied(c: AdminCommand, load: LoadResult)
      reads this
    {
      effects == old(effects) && pending == old(pending) &&
      if c == ReloadConfig then Reloaded(load) && seenUsers == old(seenUsers)
      else
        config == old(config) && outbox == old(outbox) && intervals == old(intervals) &&
        periodicTimers == old(periodicTimers) && nextHandle == old(nextHandle) &&
        exited == (c == Exit || old(exited)) &&
        seenUsers == (if c == ClearSeen then []
                      else if c.DelSeen? then DelSeenResult(old(seenUsers), c.name)
                      else if c.AddSeen? then old(seenUsers) + [c.name]
                      else old(seenUsers)) &&
        flags == (if c == GreetingsOn then old(flags)["greetings" := "true"]
                  else if c == GreetingsOff then old(flags)["greetings" := "false"]
                  else old(flags))
    }

    /** The user `!!testGreeting` greets: only a name, with no badges. */
    static function Tester(name: string): User {
      User(name, false, false, false)
    }

    /** `runAdminCommand`: nothing for a sender who is not an admin; otherwise the one command
        the message names. */
    method RunAdminCommand(target: string, user: User, text: string, load: LoadResult)
      returns (thrown: bool, ghost kc: nat, ghost km: nat)
      requires Valid()
      modifies this`seenUsers, this`exited, this`config, this`flags, this`outbox, this`effects, this`pending,
               this`intervals, this`periodicTimers, this`nextHandle
      ensures Valid()
      ensures !IsAdmin(old(config), user.username) ==> !thrown && unchanged(this)
      ensures IsAdmin(old(config), user.username) && !ParseAdmin(text).TestGreeting? ==>
        !thrown && AdminApplied(ParseAdmin(text), load)
      ensures IsAdmin(old(config), user.username) && ParseAdmin(text).TestGreeting? ==>
        var u := Tester(ParseAdmin(text).name);
        thrown == GreetingThrows(config, flags, u, false) &&
        Emitted(GreetingReaction(config, flags, target, u, false, kc, km)) &&
        unchanged(this`seenUsers, this`exited, this`config, this`flags, this`intervals, this`periodicTimers, this`nextHandle)
    {
      thrown, kc, km := false, 0, 0;
      if !IsAdmin(config, user.username) {
        return;
      }
      var command := ParseAdmin(text);
      if command.TestGreeting? {
        thrown, kc, km := GreetUser(target, Tester(command.name), false);
      } else {
        ApplyAdmin(command, load);
      }
    }

    /** The admin commands that change the bot's state. */
    method ApplyAdmin(command: AdminCommand, load: LoadResult)
      requires Valid() && !command.TestGreeting?
      modifies this`seenUsers, this`exited, this`config, this`flags, this`outbox,
               this`intervals, this`periodicTimers, this`nextHandle
      ensures Valid()
      ensures AdminApplied(command, load)
    {
      match command {
        case ClearSeen =>
          seenUsers := [];
        case Exit =>
          exited := true;
        case ReloadConfig =>
          Reload(load);
        case DelSeen(name) =>
          DelSeenLoop(name);
        case AddSeen(name) =>
          seenUsers := seenUsers + [name];
        case GreetingsOn =>
          EnableFeature("greetings");
        case GreetingsOff =>
          DisableFeature("greetings");
        case UnknownAdmin =>
      }
    }

    // ---------------------------------------------------------------- user commands

    /** `runRollDice`: a roll of a six-sided die, announced. */
    method RollDice(target: string, username: string) returns (roll: int)
      modifies this`outbox
      ensures 1 <= roll <= 6
      ensures outbox == old(outbox) + [DiceLine(roll, username)]
    {
      var r :| 0 <= r < 6;
      roll := r + 1;
      outbox := outbox + [DiceLine(roll, username)];
    }

    /** `runTimer`: validates the length and schedules the alert. */
    method RunTimer(target: string, username: string, args: seq<string>)
      modifies this`outbox, this`pending
      ensures Emitted(TimerReaction(flags, target, username, args))
    {
      if !IsFeatureEnabled(flags, "timer") {
        return;
      }
      var timerName := "";
      if |args| <= 2 || args[2] == [] || ParseNumber(args[2]).None? {
        outbox := outbox + [TimerError];
        return;
      }
      var timeout := ParseNumber(args[2]).value * 60000;
      if |args| > 4 && args[4] != [] {
        timerName := Concat(args[4..]);
      }
      outbox := outbox + ["Starting timer '" + timerName + "' for " + IntToString(timeout) + "ms"];
      pending := pending + [TimerAlertDue(timeout, target, username, timerName)];
    }

    /** `counterWrite`: stores the value and, with the web server on, pushes it to the
        overlay page. */
    method CounterWrite(name: string, value: int)
      modifies this`counters, this`effects
      ensures counters == old(counters)[name := value]
      ensures effects == old(effects) + (if IsFeatureEnabled(flags, "webserver") then [CounterUpdate(name, value)] else [])
    {
      counters := counters[name := value];
      if IsFeatureEnabled(flags, "webserver") {
        effects := effects + [CounterUpdate(name, value)];
      }
    }

    /** `counterInc`, `counterDec`, `counterSet` and `counterQuery`: read, compute, write back
        (all but the query) and announce. */
    method RunCounter(op: CounterOp, target: string, args: seq<string>) returns (value: int)
      requires |args| >= 1
      modifies this`counters, this`outbox, this`effects
      ensures value == CounterValue(op, CounterRead(old(counters), CounterNameOf(args)), NumberArg(args))
      ensures counters == CountersAfter(old(counters), op, CounterNameOf(args), NumberArg(args))
      ensures outbox == old(outbox) + [CounterLine(CounterNameOf(args), value)]
      ensures effects == old(effects) +
        (if op != Query && IsFeatureEnabled(flags, "webserver") then [CounterUpdate(CounterNameOf(args), value)] else [])
    {
      var name := CounterNameOf(args);
      var current := CounterRead(counters, name);
      var arg := NumberArg(args);
      match op {
        case Inc =>
          var offset := if arg.Some? then arg.value else 1;
          value := current + offset;
          CounterWrite(name, value);
        case Dec =>
          var offset := if arg.Some? then arg.value else 1;
          value := if current - offset > 0 then current - offset else 0;
          CounterWrite(name, value);
        case Set =>
          value := if arg.Some? then arg.value else 0;
          CounterWrite(name, value);
        case Query =>
          value := current;
      }
      outbox := outbox + [CounterLine(name, value)];
    }

    /** What a user command leaves behind: `!audio` plays the scream; `!dice` announces a
        roll of one to six; `!timer` does what `TimerReaction` says; a counter command updates
        the counter store as `CountersAfter` says, announces the value and pushes it to the
        overlay page; no command changes nothing. */
    twostate predicate UserCommandApplied(c: UserCommand, target: string, username: string, args: seq<string>, roll: int)
      requires |args| >= 1
      reads this
    {
      if c == Audio then
        effects == old(effects) + [PlayAudio(ScreamFile)] &&
        outbox == old(outbox) && pending == old(pending) && counters == old(counters)
      else if c == Dice then
        1 <= roll <= 6 && outbox == old(outbox) + [DiceLine(roll, username)] &&
        effects == old(effects) && pending == old(pending) && counters == old(counters)
      else if c == Timer then
        Emitted(TimerReaction(flags, target, username, args)) && counters == old(counters)
      else if c.Counter? then
        var name := CounterNameOf(args);
        var v := CounterValue(c.op, CounterRead(old(counters), name), NumberArg(args));
        counters == CountersAfter(old(counters), c.op, name, NumberArg(args)) &&
        outbox == old(outbox) + [CounterLine(name, v)] &&
        effects == old(effects) +
          (if c.op != Query && IsFeatureEnabled(flags, "webserver") then [CounterUpdate(name, v)] else []) &&
        pending == old(pending)
      else
        outbox == old(outbox) && effects == old(effects) && pending == old(pending) && counters == old(counters)
    }

    /** `runUserCommand`: at most one built-in command runs, the first of the chain that the
        message and the flags select. */
    method RunUserCommand(target: string, user: User, text: string, args: seq<string>) returns (ghost roll: int)
      requires |args| >= 1
      modifies this`outbox, this`effects, this`pending, this`counters
      ensures UserCommandApplied(ParseUser(text, flags), target, user.username, args, roll)
    {
      roll := 0;
      var command := ParseUser(text, flags);
      match command {
        case Audio =>
          effects := effects + [PlayAudio(ScreamFile)];
        case Dice =>
          roll := RollDice(target, user.username);
        case Timer =>
          RunTimer(target, user.username, args);
        case Counter(op) =>
          var _ := RunCounter(op, target, args);
        case NoUserCommand =>
      }
    }

    // ---------------------------------------------------------------- scans

    /** `runForbiddenPhrases`: for a sender who is not exempt, every rule whose pattern
        matches, in order, sends its CHAT, its timeout and its ban. */
    method RunForbiddenPhrases(target: string, user: User, text: string) returns (ghost picks: seq<nat>)
      modifies this`outbox
      ensures ForbiddenExempt(flags, user) ==> outbox == old(outbox)
      ensures !ForbiddenExempt(flags, user) ==>
        |picks| == |config.forbidden| &&
        outbox == old(outbox) + ForbiddenLines(matcher, config.forbidden, target, user.username, text, picks)
    {
      picks := [];
      if ForbiddenExempt(flags, user) {
        return;
      }
      var rules := config.forbidden;
      var i := 0;
      while i < |rules|
        invariant 0 <= i <= |rules| && |picks| == i
        invariant outbox == old(outbox) + ForbiddenLines(matcher, rules[..i], target, user.username, text, picks)
      {
        ghost var k: nat := 0;
        var matches := matcher(rules[i].0, text);
        if matches.Some? {
          k := ForbiddenRule(target, user.username, rules[i].1, matches.value);
        }
        ForbiddenLinesSnoc(matcher, rules, target, user.username, text, picks, i, k);
        picks := picks + [k];
        i := i + 1;
      }
      assert rules[..i] == rules;
    }

    /** The body of the forbidden-phrase loop for a rule whose pattern matched. */
    method ForbiddenRule(target: string, username: string, rule: Rule, caps: seq<string>) returns (ghost k: nat)
      modifies this`outbox
      ensures outbox == old(outbox) + ForbiddenRuleLines(target, username, rule, caps, k)
    {
      k := 0;
      if rule.chat.Some? {
        k := SendChat(target, rule.chat, username, caps);
      }
      if rule.timeout.Some? {
        var _ := SendChat(target, Some(Text(TimeoutCommand(username, rule.timeout.value))), username, caps);
      }
      if rule.ban {
        var _ := SendChat(target, Some(Text(BanCommand(username))), username, caps);
      }
    }

    /** `runTriggeredMessage`: a `!!` message from a named sender who is not an admin ends the
        scan at its first rule; otherwise every rule whose pattern matches, in order, sends its
        CHAT, plays its MEDIA and schedules its SHOUTOUT. */
    method RunTriggeredMessages(target: string, user: User, text: string) returns (ghost picks: seq<(nat, nat)>)
      modifies this`outbox, this`effects, this`pending
      ensures TriggerGate(config, user, text) && config.triggers != [] ==> Emitted(Silent)
      ensures !(TriggerGate(config, user, text) && config.triggers != []) ==>
        |picks| == |config.triggers| &&
        Emitted(TriggerReaction(matcher, config, config.triggers, target, user.username, text, picks))
    {
      picks := [];
      var rules := config.triggers;
      var i := 0;
      ghost var acc := Silent;
      while i < |rules|
        invariant 0 <= i <= |rules| && |picks| == i
        invariant i > 0 ==> !TriggerGate(config, user, text)
        invariant acc == TriggerReaction(matcher, config, rules[..i], target, user.username, text, picks)
        invariant outbox == old(outbox) + acc.lines
        invariant effects == old(effects) + acc.effects
        invariant pending == old(pending) + acc.delayed
      {
        if TriggerGate(config, user, text) {
          return;
        }
        ghost var kc: nat, km: nat, step := TriggerStep(target, user.username, text, rules[i]);
        TriggerReactionSnoc(matcher, config, rules, target, user.username, text, picks, i, kc, km);
        AppendAssoc(old(outbox), acc.lines, step.lines);
        AppendAssoc(old(effects), acc.effects, step.effects);
        AppendAssoc(old(pending), acc.delayed, step.delayed);
        acc := Then(acc, step);
        picks := picks + [(kc, km)];
        i := i + 1;
      }
      assert rules[..i] == rules;
    }

    /** The body of the triggered-message loop: a rule whose pattern matches sends its CHAT,
        plays its MEDIA and schedules its SHOUTOUT; any other rule does nothing. */
    method TriggerStep(target: string, username: string, text: string, entry: (string, Rule))
      returns (ghost kc: nat, ghost km: nat, ghost step: Reaction)
      modifies this`outbox, this`effects, this`pending
      ensures step == match matcher(entry.0, text)
                      case None => Silent
                      case Some(caps) => TriggerRuleReaction(config, target, username, entry.1, caps, kc, km)
      ensures Emitted(step)
    {
      kc, km, step := 0, 0, Silent;
      var matches := matcher(entry.0, text);
      if matches.Some? {
        var rule, caps := entry.1, matches.value;
        if rule.chat.Some? {
          kc := SendChat(target, rule.chat, username, caps);
        }
        if rule.media.Some? {
          km := PlayMedia(rule.media, username);
        }
        if rule.shoutout.Some? {
          SendShoutOut(target, username, rule.shoutout.value, caps);
        }
        step := TriggerRuleReaction(config, target, username, rule, caps, kc, km);
      }
    }

    /** `runRandomFileLineCommands`: a message that is exactly a configured command sends one
        line of its file. */
    method RunRandomFileLine(target: string, text: string) returns (ghost k: nat)
      modifies this`outbox
      ensures outbox == old(outbox) + RandomLine(config, files, text, k)
    {
      k := 0;
      if text in config.randomLineCommands {
        var fileName := config.randomLineCommands[text];
        if fileName in files {
          var lines := SplitLines(files[fileName]);
          var n :| 0 <= n < |lines|;
          k := n;
          RandomLineAt(config, files, text, n);
          outbox := outbox + [lines[n]];
        }
      }
    }

    /** `runImageLink`: with the image-link feature on, a message that is a GIPHY link is
        written into the popup page. */
    method RunImageLink(text: string)
      modifies this`popup
      ensures popup == if IsFeatureEnabled(flags, "imagelink") && IsGiphyLink(text) then Some(ImagePopup(text)) else old(popup)
    {
      if IsFeatureEnabled(flags, "imagelink") && IsGiphyLink(text) {
        popup := Some(ImagePopup(text));
      }
    }

    // ---------------------------------------------------------------- the message handler

    /** The four scans every message goes through after the command step. */
    method RunScans(target: string, user: User, text: string)
      returns (ghost pf: seq<nat>, ghost pt: seq<(nat, nat)>, ghost kr: nat)
      modifies this`outbox, this`effects, this`pending, this`popup
      ensures !ForbiddenExempt(flags, user) ==> |pf| == |config.forbidden|
      ensures !(TriggerGate(config, user, text) && config.triggers != []) ==> |pt| == |config.triggers|
      ensures Emitted(ScanReaction(matcher, config, flags, files, target, user, text, pf, pt, kr))
      ensures popup == if IsFeatureEnabled(flags, "imagelink") && IsGiphyLink(text) then Some(ImagePopup(text)) else old(popup)
    {
      pf := RunForbiddenPhrases(target, user, text);
      ghost var f := outbox[|old(outbox)|..];
      assert outbox == old(outbox) + f;
      ghost var o, e, d := outbox, effects, pending;
      pt := RunTriggeredMessages(target, user, text);
      ghost var t := Reaction(outbox[|o|..], effects[|e|..], pending[|d|..]);
      assert outbox == o + t.lines && effects == e + t.effects && pending == d + t.delayed;
      kr := RunRandomFileLine(target, text);
      RunImageLink(text);
      ScanReactionParts(matcher, config, flags, files, target, user, text, pf, pt, kr, f, t);
      AppendAssoc(old(outbox), f, t.lines);
      AppendAssoc(old(outbox), f + t.lines, RandomLine(config, files, text, kr));
    }

    /** The scans as the rest of the handler sees them: output is only ever added, and the
        popup page shows a GIPHY link when the image-link feature is on. */
    method ScanStep(target: string, user: User, text: string)
      modifies this`outbox, this`effects, this`pending, this`popup
      ensures old(outbox) <= outbox && old(effects) <= effects && old(pending) <= pending
      ensures popup == if IsFeatureEnabled(flags, "imagelink") && IsGiphyLink(text) then Some(ImagePopup(text)) else old(popup)
    {
      ghost var pf, pt, kr := RunScans(target, user, text);
    }

    /** The first-seen step as the rest of the handler sees it: the seen list and the ledger
        change only as `runFirstSeen` changes them, only a greeting of a newly seen sender can
        throw, and output is only ever added. */
    method GreetStep(target: string, user: User) returns (thrown: bool)
      modifies this`seenUsers, this`ledger, this`outbox, this`effects, this`pending
      ensures seenUsers == SeenAfter(old(seenUsers), user)
      ensures ledger != old(ledger) ==>
        IsNewlySeen(old(seenUsers), user) && ledger == LedgerAfter(old(ledger), ToLower(user.username))
      ensures thrown ==> IsNewlySeen(old(seenUsers), user)
      ensures old(outbox) <= outbox && old(effects) <= effects && old(pending) <= pending
    {
      ghost var first: bool, kc: nat, km: nat;
      thrown, first, kc, km := RunFirstSeen(target, user);
    }

    /** The admin branch as the rest of the handler sees it: only an admin changes anything,
        only `!!exit` or a failed `!!reload` stops the bot, and output is only ever added. */
    method AdminStep(target: string, user: User, text: string, load: LoadResult) returns (thrown: bool)
      requires Valid()
      modifies this`seenUsers, this`exited, this`config, this`flags, this`outbox, this`effects, this`pending,
               this`intervals, this`periodicTimers, this`nextHandle
      ensures Valid()
      ensures old(outbox) <= outbox && old(effects) <= effects && old(pending) <= pending
      ensures exited != old(exited) ==>
        IsAdmin(old(config), user.username) &&
        (text == "!!exit" || (text == "!!reload" && load.LoadFailed? && channel == []))
      ensures !IsAdmin(old(config), user.username) ==> !thrown && unchanged(this)
    {
      ghost var kc: nat, km: nat;
      thrown, kc, km := RunAdminCommand(target, user, text, load);
    }

    /** The user-command branch as the rest of the handler sees it: output is only ever
        added, and a counter changes only for a counter command. */
    method UserStep(target: string, user: User, text: string, args: seq<string>)
      requires |args| >= 1
      modifies this`outbox, this`effects, this`pending, this`counters
      ensures old(outbox) <= outbox && old(effects) <= effects && old(pending) <= pending
      ensures counters != old(counters) ==> ParseUser(text, flags).Counter?
    {
      ghost var roll := RunUserCommand(target, user, text, args);
    }

    /** The command step of the handler: a `!!` message goes to the admin commands, another
        message starting with `!` to the user commands. Only an admin can stop the bot or
        change its configuration, its flags or its seen list here, and only a user command
        changes a counter. */
    method RunCommand(target: string, user: User, text: string, args: seq<string>, load: LoadResult)
      returns (thrown: bool)
      requires Valid() && |args| >= 1
      modifies this`seenUsers, this`exited, this`config, this`flags, this`counters, this`outbox,
               this`effects, this`pending, this`intervals, this`periodicTimers, this`nextHandle
      ensures Valid()
      ensures old(outbox) <= outbox && old(effects) <= effects && old(pending) <= pending
      ensures exited != old(exited) ==>
        IsAdmin(old(config), user.username) &&
        (text == "!!exit" || (text == "!!reload" && load.LoadFailed? && channel == []))
      ensures !IsAdmin(old(config), user.username) ==>
        !thrown && exited == old(exited) && config == old(config) && flags == old(flags) &&
        intervals == old(intervals) && seenUsers == old(seenUsers)
      ensures counters != old(counters) ==> !StartsWith(text, "!!") && ParseUser(text, old(flags)).Counter?
    {
      thrown := false;
      if StartsWith(text, "!!") {
        thrown := AdminStep(target, user, text, load);
      } else if StartsWith(text, "!") {
        UserStep(target, user, text, args);
      }
    }

    /** The command step and then, unless it threw or stopped the bot, the scans. */
    method RunCommandAndScans(target: string, user: User, text: string, args: seq<string>, load: LoadResult)
      returns (thrown: bool)
      requires Valid() && !exited && |args| >= 1
      modifies this`seenUsers, this`exited, this`config, this`flags, this`counters, this`outbox,
               this`effects, this`pending, this`popup, this`intervals, this`periodicTimers, this`nextHandle
      ensures Valid()
      ensures old(outbox) <= outbox && old(effects) <= effects && old(pending) <= pending
      ensures exited ==>
        IsAdmin(old(config), user.username) &&
        (text == "!!exit" || (text == "!!reload" && load.LoadFailed? && channel == []))
      ensures !IsAdmin(old(config), user.username) ==>
        !thrown && !exited && config == old(config) && flags == old(flags) && intervals == old(intervals) &&
        seenUsers == old(seenUsers)
      ensures counters != old(counters) ==> !StartsWith(text, "!!") && ParseUser(text, old(flags)).Counter?
      ensures thrown || exited ==> popup == old(popup)
      ensures !thrown && !exited ==>
        popup == if IsFeatureEnabled(flags, "imagelink") && IsGiphyLink(text) then Some(ImagePopup(text)) else old(popup)
    {
      thrown := RunCommand(target, user, text, args, load);
      if thrown || exited {
        return;
      }
      ghost var o, e, d := outbox, effects, pending;
      ScanStep(target, user, text);
      PrefixTrans(old(outbox), o, outbox);
      PrefixTrans(old(effects), e, effects);
      PrefixTrans(old(pending), d, pending);
    }

    /** The handler after the ignore-list gate, on the sanitised message and its pieces: the
        sender is greeted when first seen, then the command step runs and, unless something
        threw or the bot stopped, the scans. */
    method Respond(target: string, user: User, text: string, args: seq<string>, load: LoadResult)
      returns (thrown: bool)
      requires Valid() && !exited && |args| >= 1
      modifies this`seenUsers, this`ledger, this`exited, this`config, this`flags, this`counters, this`outbox,
               this`effects, this`pending, this`popup, this`intervals, this`periodicTimers, this`nextHandle
      ensures Valid()
      ensures old(outbox) <= outbox && old(effects) <= effects && old(pending) <= pending
      ensures exited ==>
        IsAdmin(old(config), user.username) &&
        (text == "!!exit" || (text == "!!reload" && load.LoadFailed? && channel == []))
      ensures !IsAdmin(old(config), user.username) ==>
        !exited && config == old(config) && flags == old(flags) && intervals == old(intervals) &&
        seenUsers == SeenAfter(old(seenUsers), user)
      ensures ledger != old(ledger) ==>
        IsNewlySeen(old(seenUsers), user) && ledger == LedgerAfter(old(ledger), ToLower(user.username))
      ensures counters != old(counters) ==> !StartsWith(text, "!!") && ParseUser(text, old(flags)).Counter?
      ensures thrown || exited ==> popup == old(popup)
      ensures !thrown && !exited ==>
        popup == if IsFeatureEnabled(flags, "imagelink") && IsGiphyLink(text) then Some(ImagePopup(text)) else old(popup)
    {
      thrown := GreetStep(target, user);
      if thrown {
        return;
      }
      ghost var o, e, d := outbox, effects, pending;
      thrown := RunCommandAndScans(target, user, text, args, load);
      PrefixTrans(old(outbox), o, outbox);
      PrefixTrans(old(effects), e, effects);
      PrefixTrans(old(pending), d, pending);
    }

    /** `onMessageHandler`: an ignored sender is left alone; otherwise the message is
        sanitised and split, the sender is greeted when first seen, a `!!` message goes to the
        admin commands and another `!` message to the user commands, and then the scans run.
        An exception (a greeting lookup that throws) abandons the rest of the handler, and so
        does `process.exit`. */
    method HandleMessage(target: string, user: User, msg: string, load: LoadResult) returns (thrown: bool)
      requires Valid() && !exited
      modifies this`seenUsers, this`ledger, this`exited, this`config, this`flags, this`counters, this`outbox,
               this`effects, this`pending, this`popup, this`intervals, this`periodicTimers, this`nextHandle
      ensures Valid()
      ensures IsIgnored(old(config), user.username) ==> !thrown && unchanged(this)
      ensures old(outbox) <= outbox && old(effects) <= effects && old(pending) <= pending
      ensures exited ==>
        IsAdmin(old(config), user.username) &&
        (Sanitize(msg) == "!!exit" || (Sanitize(msg) == "!!reload" && load.LoadFailed? && channel == []))
      ensures !IsAdmin(old(config), user.username) ==>
        !exited && config == old(config) && flags == old(flags) && intervals == old(intervals)
      ensures !IsIgnored(old(config), user.username) && !IsAdmin(old(config), user.username) ==>
        seenUsers == SeenAfter(old(seenUsers), user)
      ensures ledger != old(ledger) ==>
        IsNewlySeen(old(seenUsers), user) && ledger == LedgerAfter(old(ledger), ToLower(user.username))
      ensures counters != old(counters) ==>
        !StartsWith(Sanitize(msg), "!!") && ParseUser(Sanitize(msg), old(flags)).Counter?
      ensures thrown || exited ==> popup == old(popup)
      ensures !IsIgnored(old(config), user.username) && !thrown && !exited ==>
        popup == if IsFeatureEnabled(flags, "imagelink") && IsGiphyLink(Sanitize(msg))
                 then Some(ImagePopup(Sanitize(msg))) else old(popup)
    {
      thrown := false;
      if IsIgnored(config, user.username) {
        return;
      }
      var text := Sanitize(msg);
      var args := Tokenize(text);
      thrown := Respond(target, user, text, args, load);
    }

    // ---------------------------------------------------------------- timers firing

    /** A periodic interval fires: its message, looked up in the current configuration, goes
        to the bot's channel. */
    method FireInterval(i: nat) returns (ghost kc: nat, ghost km: nat)
      requires Valid() && i < |intervals|
      modifies this`outbox, this`effects
      ensures Emitted(PeriodicReaction(config, channel, PeriodicEntry(config.periodic, intervals[i].key), kc, km))
    {
      kc, km := 0, 0;
      var m := PeriodicEntry(config.periodic, intervals[i].key);
      if m.chat.Some? {
        kc := SendChat(channel, m.chat, "", []);
      }
      if m.media.Some? {
        km := PlayMedia(m.media, "");
      }
    }

    /** A delayed reaction comes due and leaves the pending list: a shout-out goes through
        `sendChat`; a timer alert sends TIMER_ALERT as configured at that moment. */
    method FirePending(i: nat) returns (ghost k: nat)
      requires i < |pending|
      modifies this`outbox, this`effects, this`pending
      ensures pending == old(pending)[..i] + old(pending)[i + 1..]
      ensures old(pending)[i].ShoutOut? ==>
        var d := old(pending)[i];
        outbox == old(outbox) + ChatLines(d.target, Some(d.command), d.username, d.captures, k) &&
        effects == old(effects)
      ensures old(pending)[i].TimerAlertDue? ==>
        var d := old(pending)[i];
        var r := TimerAlertReaction(config, d.target, d.username, d.timerName);
        outbox == old(outbox) + r.lines && effects == old(effects) + r.effects
    {
      k := 0;
      var d := pending[i];
      pending := pending[..i] + pending[i + 1..];
      match d {
        case ShoutOut(_, target, username, command, caps) =>
          k := SendChat(target, Some(command), username, caps);
        case TimerAlertDue(_, target, username, name) =>
          if config.timerAlert.Some? {
            var alert := config.timerAlert.value;
            if alert.chat.Some? {
              var _ := SendChat(target, Some(Text(ReplaceFirst(alert.chat.value, "TIMERNAME", name))), username, []);
            }
            if alert.media.Some? {
              var _ := PlayMedia(Some(Text(ReplaceFirst(alert.media.value, "TIMERNAME", name))), username);
            }
          }
      }
    }
  }
}
