/** The event relay itself (index.js:98-211 with the chat-platform handlers at 50-96):
    the module-level session state, and one method per event handler.

    Handlers run to completion one at a time, so each is one method. The libraries
    the handlers call are seen only through what the bridge asks of them: messages
    posted to the channel (`outbox`), chat lines given to the game session
    (`commands`) and the other requests in order (`effects`). */
module Bridge {
  import opened Options
  import Relay
  import Replies
  import Roster
  import Supervisor
  import Killaura
  import Text

  /** The settings read from the configuration file that the core uses. */
  datatype Config = Config(host: string, port: int, username: string, channel: string, role: string, modded: bool)

  /** What a scheduled callback does when its delay has passed. */
  datatype Timer = RetryReconnect | Respawn

  /** A request the bridge makes of the game library or the runtime. */
  datatype Effect =
    | Lookup(host: string, port: int)
    | CreateSession(host: string, port: int, username: string, forge: bool)
    | Schedule(delay: nat, timer: Timer)
    | EndSession(reason: string)
    | LookAtNearest
    | AttackNearest

  /** `channel?.send(text)`: the channel handle exists only after the chat client is ready. */
  function Post(ready: bool, outbox: seq<Replies.Notice>, n: Replies.Notice): (o: seq<Replies.Notice>)
    ensures outbox <= o && |o| == |outbox| + (if ready then 1 else 0)
    ensures ready ==> o[|outbox|] == n
  {
    if ready then outbox + [n] else outbox
  }

  const RespawnDelay: nat := 1000

  /** The effects of a run of player movements in terminator mode, with a nearest
      player present each time: a look at it, and an attack where the rate limit allows. */
  function MoveEffects(ticks: seq<Killaura.Tick>, lastAttack: int): seq<Effect>
  {
    if ticks == [] then []
    else if Killaura.MayAttack(ticks[0].inRange, ticks[0].now, lastAttack)
    then [LookAtNearest, AttackNearest] + MoveEffects(ticks[1..], ticks[0].now)
    else [LookAtNearest] + MoveEffects(ticks[1..], lastAttack)
  }

  /** The effects of `k` unanswered-or-empty rounds of the retry loop: a lookup, then a
      retry ten seconds later. */
  function Retries(host: string, port: int, k: nat): seq<Effect>
  {
    if k == 0 then []
    else Retries(host, port, k - 1) + [Lookup(host, port), Schedule(Supervisor.RetryDelay, RetryReconnect)]
  }

  class Relayer {
    const config: Config

    /** The channel handle has been fetched (`channel` is no longer undefined). */
    var channelReady: bool
    /** `bot`: the number of the current game session, `None` when undefined. */
    var bot: Option<nat>
    /** How many sessions have been created so far. */
    var sessions: nat
    /** `spawned`: undefined, false or true. */
    var spawned: Option<bool>
    /** `players`: undefined (not connected), or the roster in join order. */
    var players: Option<seq<string>>
    /** Terminator mode; set by a command, kept across sessions. */
    var killaura: bool
    /** The current session's last attack time, in ms. */
    var lastAttackTime: int
    /** The current session's one-shot `spawn` and `error` listeners have not fired yet. */
    var awaitingSpawn: bool
    var awaitingError: bool
    /** Status lookups started and not yet answered. */
    var pendingLookups: nat

    /** What was posted to the channel; `Replies.NoticeText` gives each text. */
    var outbox: seq<Replies.Notice>
    var commands: seq<string>
    var effects: seq<Effect>

    /** A session and its roster exist together; the session is the latest one created. */
    ghost predicate Valid()
      reads this
    {
      (bot.Some? <==> players.Some?) &&
      (bot.Some? ==> spawned.Some? && bot.value + 1 == sessions)
    }

    constructor (config: Config)
      ensures Valid() && this.config == config
      ensures !channelReady && bot.None? && spawned.None? && players.None? && !killaura
      ensures sessions == 0 && pendingLookups == 0
      ensures !awaitingSpawn && !awaitingError && lastAttackTime == 0
      ensures outbox == [] && commands == [] && effects == []
    {
      this.config := config;
      channelReady := false;
      bot, sessions, spawned, players := None, 0, None, None;
      killaura := false;
      lastAttackTime := 0;
      awaitingSpawn, awaitingError := false, false;
      pendingLookups := 0;
      outbox, commands, effects := [], [], [];
    }

    /** The chat client's `ready` event: the channel is fetched. */
    method OnReady()
      requires Valid()
      modifies this`channelReady
      ensures Valid() && channelReady
    {
      channelReady := true;
    }

    /** `reconnect()` up to its `await`: a status lookup is started. */
    method Reconnect()
      requires Valid()
      modifies this`pendingLookups, this`effects
      ensures Valid()
      ensures pendingLookups == old(pendingLookups) + 1
      ensures effects == old(effects) + [Lookup(config.host, config.port)]
    {
      pendingLookups := pendingLookups + 1;
      effects := effects + [Lookup(config.host, config.port)];
    }

    /** `createBot()`: a fresh session that has not spawned, an empty roster and one
        "Connecting" notification; terminator mode and the rest are left as they were. */
    method CreateBot()
      requires Valid()
      modifies this`bot, this`sessions, this`spawned, this`players, this`lastAttackTime,
        this`awaitingSpawn, this`awaitingError, this`outbox, this`effects
      ensures Valid()
      ensures bot == Some(old(sessions)) && sessions == old(sessions) + 1 &&
        spawned == Some(false) && players == Some([]) &&
        lastAttackTime == 0 && awaitingSpawn && awaitingError &&
        outbox == Post(channelReady, old(outbox), Replies.Connecting(config.host)) &&
        effects == old(effects) + [CreateSession(config.host, config.port, config.username, config.modded)]
    {
      var notice := Replies.Connecting(config.host);
      var session := CreateSession(config.host, config.port, config.username, config.modded);
      bot, sessions, spawned, players, lastAttackTime, awaitingSpawn, awaitingError, outbox, effects :=
        Some(sessions), sessions + 1, Some(false), Some([]), 0, true, true,
        Post(channelReady, outbox, notice), effects + [session];
    }

    /** `reconnect()` after its `await`: the lookup's outcome decides between a new
        session and one retry ten seconds later. */
    method OnLookup(p: Supervisor.Probe)
      requires Valid() && pendingLookups > 0
      modifies this`pendingLookups, this`bot, this`sessions, this`spawned, this`players, this`lastAttackTime,
        this`awaitingSpawn, this`awaitingError, this`outbox, this`effects
      ensures Valid()
      ensures pendingLookups == old(pendingLookups) - 1
      ensures p.Answered? && p.online > 0 ==>
        bot == Some(old(sessions)) && sessions == old(sessions) + 1 &&
        spawned == Some(false) && players == Some([]) &&
        lastAttackTime == 0 && awaitingSpawn && awaitingError &&
        outbox == Post(channelReady, old(outbox), Replies.Connecting(config.host)) &&
        effects == old(effects) + [CreateSession(config.host, config.port, config.username, config.modded)]
      ensures !(p.Answered? && p.online > 0) ==>
        effects == old(effects) + [Schedule(Supervisor.RetryDelay, RetryReconnect)] &&
        sessions == old(sessions) && bot == old(bot) && spawned == old(spawned) && players == old(players) &&
        outbox == old(outbox) && lastAttackTime == old(lastAttackTime) &&
        awaitingSpawn == old(awaitingSpawn) && awaitingError == old(awaitingError)
      ensures commands == old(commands) && killaura == old(killaura) && channelReady == old(channelReady)
    {
      pendingLookups := pendingLookups - 1;
      match Supervisor.Decide(p)
      case Connect =>
        CreateBot();
      case RetryAfter(delay) =>
        effects := effects + [Schedule(delay, RetryReconnect)];
    }

    /** `playerJoined`: the name is appended to the roster; the channel hears of it
        only once the session has spawned. With no roster the push throws. */
    method OnPlayerJoined(name: string) returns (threw: bool)
      requires Valid()
      modifies this`players, this`outbox
      ensures Valid()
      ensures threw <==> old(players).None?
      ensures !threw ==> players == Some(old(players).value + [name])
      ensures threw ==> players == old(players)
      ensures outbox == if !threw && spawned == Some(true)
                        then Post(channelReady, old(outbox), Replies.Joined(name))
                        else old(outbox)
    {
      if players.None? {
        return true;
      }
      threw := false;
      players := Some(Roster.Step(players.value, Roster.Joined(name)));
      if spawned == Some(true) {
        outbox := Post(channelReady, outbox, Replies.Joined(name));
      }
    }

    /** `playerLeft`: every entry with that name leaves the roster, the others keep
        their order; the channel hears of it only once the session has spawned. */
    method OnPlayerLeft(name: string) returns (threw: bool)
      requires Valid()
      modifies this`players, this`outbox
      ensures Valid()
      ensures threw <==> old(players).None?
      ensures !threw ==> players == Some(Roster.Without(old(players).value, name))
      ensures threw ==> players == old(players)
      ensures outbox == if !threw && spawned == Some(true)
                        then Post(channelReady, old(outbox), Replies.Left(name))
                        else old(outbox)
    {
      if players.None? {
        return true;
      }
      threw := false;
      players := Some(Roster.Step(players.value, Roster.Left(name)));
      if spawned == Some(true) {
        outbox := Post(channelReady, outbox, Replies.Left(name));
      }
    }

    /** `chat`: a public chat line from anyone but the session itself is relayed.
        `selfName` is the name the session reports; reading it throws without a session. */
    method OnChat(username: string, message: string, selfName: string) returns (threw: bool)
      requires Valid()
      modifies this`outbox
      ensures Valid()
      ensures threw <==> bot.None?
      ensures outbox == if bot.Some? && username != selfName
                        then Post(channelReady, old(outbox), Replies.Chat(username, message))
                        else old(outbox)
    {
      if bot.None? {
        return true;
      }
      threw := false;
      if username != selfName {
        outbox := Post(channelReady, outbox, Replies.Chat(username, message));
      }
    }

    /** `whisper`: a private message to the session is relayed. */
    method OnWhisper(username: string, message: string)
      requires Valid()
      modifies this`outbox
      ensures Valid()
      ensures outbox == Post(channelReady, old(outbox), Replies.Whisper(username, message))
    {
      outbox := Post(channelReady, outbox, Replies.Whisper(username, message));
    }

    /** `kicked`: the reason is relayed and a reconnect starts; the session state is
        left as it is (the `end` that follows a kick clears it). `formatted` is the
        library's rendering of a structured reason. */
    method OnKicked(reason: string, formatted: string)
      requires Valid()
      modifies this`outbox, this`pendingLookups, this`effects
      ensures Valid()
      ensures outbox == Post(channelReady, old(outbox), Replies.Kicked(Replies.KickReason(reason, formatted)))
      ensures pendingLookups == old(pendingLookups) + 1
      ensures effects == old(effects) + [Lookup(config.host, config.port)]
    {
      outbox := Post(channelReady, outbox, Replies.Kicked(Replies.KickReason(reason, formatted)));
      Reconnect();
    }

    /** `end`: the disconnect is relayed, session, spawn flag and roster all become
        undefined, and a reconnect starts. */
    method OnEnd()
      requires Valid()
      modifies this`outbox, this`bot, this`spawned, this`players, this`pendingLookups, this`effects
      ensures Valid()
      ensures outbox == Post(channelReady, old(outbox), Replies.Disconnected)
      ensures bot.None? && spawned.None? && players.None?
      ensures Replies.OnlineReply(players) == Replies.NotConnected
      ensures pendingLookups == old(pendingLookups) + 1
      ensures effects == old(effects) + [Lookup(config.host, config.port)]
    {
      outbox := Post(channelReady, outbox, Replies.Disconnected);
      bot, spawned, players := None, None, None;
      Reconnect();
    }

    /** `spawn` (a one-shot listener): the first spawn of a session is relayed and
        marks it spawned; later ones are not heard. */
    method OnSpawn()
      requires Valid()
      modifies this`outbox, this`spawned, this`awaitingSpawn
      ensures Valid() && !awaitingSpawn
      ensures old(awaitingSpawn) ==>
        spawned == Some(true) && outbox == Post(channelReady, old(outbox), Replies.Spawned)
      ensures !old(awaitingSpawn) ==> spawned == old(spawned) && outbox == old(outbox)
    {
      if awaitingSpawn {
        awaitingSpawn := false;
        outbox := Post(channelReady, outbox, Replies.Spawned);
        spawned := Some(true);
      }
    }

    /** `error` (a one-shot listener): the crash is relayed, the session is asked to
        end, and session, spawn flag and roster become undefined. Asking a missing
        session to end throws, and then nothing is cleared. No reconnect starts here:
        it follows from the `end` event the ended session emits. */
    method OnError(message: string) returns (threw: bool)
      requires Valid()
      modifies this`outbox, this`bot, this`spawned, this`players, this`effects, this`awaitingError
      ensures Valid() && !awaitingError
      ensures threw <==> old(awaitingError) && old(bot).None?
      ensures old(awaitingError) ==> outbox == Post(channelReady, old(outbox), Replies.Crashed(message))
      ensures old(awaitingError) && !threw ==>
        bot.None? && spawned.None? && players.None? && effects == old(effects) + [EndSession(message)]
      ensures !old(awaitingError) || threw ==>
        bot == old(bot) && spawned == old(spawned) && players == old(players) && effects == old(effects)
      ensures !old(awaitingError) ==> outbox == old(outbox)
    {
      threw := false;
      if awaitingError {
        awaitingError := false;
        outbox := Post(channelReady, outbox, Replies.Crashed(message));
        if bot.None? {
          return true;
        }
        effects := effects + [EndSession(message)];
        bot, spawned, players := None, None, None;
      }
    }

    /** A run of player movements with a session, terminator mode on and a nearest
        player each time: the clock readings at which the session attacks are exactly
        `Killaura.Attacks` of the run, so its spacing and window bounds hold here. */
    method TerminatorRun(ticks: seq<Killaura.Tick>) returns (attackTimes: seq<int>)
      requires Valid() && bot.Some? && killaura
      modifies this`effects, this`lastAttackTime
      ensures Valid()
      ensures attackTimes == Killaura.Attacks(ticks, old(lastAttackTime))
      ensures lastAttackTime == Killaura.LastAttack(ticks, old(lastAttackTime))
      ensures effects == old(effects) + MoveEffects(ticks, old(lastAttackTime))
    {
      attackTimes := [];
      var i := 0;
      while i < |ticks|
        invariant i <= |ticks|
        invariant attackTimes + Killaura.Attacks(ticks[i..], lastAttackTime) == Killaura.Attacks(ticks, old(lastAttackTime))
        invariant Killaura.LastAttack(ticks[i..], lastAttackTime) == Killaura.LastAttack(ticks, old(lastAttackTime))
        invariant effects + MoveEffects(ticks[i..], lastAttackTime) == old(effects) + MoveEffects(ticks, old(lastAttackTime))
      {
        assert ticks[i..][1..] == ticks[i + 1..];
        var attacked, _ := OnEntityMoved(true, true, ticks[i].inRange, ticks[i].now);
        if attacked {
          attackTimes := attackTimes + [ticks[i].now];
        }
        i := i + 1;
      }
      assert ticks[i..] == [];
    }

    /** `death`: a respawn is scheduled one second later. */
    method OnDeath()
      requires Valid()
      modifies this`effects
      ensures Valid()
      ensures effects == old(effects) + [Schedule(RespawnDelay, Respawn)]
    {
      effects := effects + [Schedule(RespawnDelay, Respawn)];
    }

    /** `entityMoved`: when a player moved and a nearest player exists, the session
        looks at it; in terminator mode it also attacks under the rate limit, and only
        an attack moves the last-attack time. Finding the nearest player throws
        without a session. */
    method OnEntityMoved(isPlayer: bool, nearestExists: bool, inRange: bool, now: int)
      returns (attacked: bool, threw: bool)
      requires Valid()
      modifies this`effects, this`lastAttackTime
      ensures Valid()
      ensures threw <==> isPlayer && bot.None?
      ensures attacked <==>
        isPlayer && bot.Some? && nearestExists && killaura && Killaura.MayAttack(inRange, now, old(lastAttackTime))
      ensures lastAttackTime == if attacked then now else old(lastAttackTime)
      ensures effects == old(effects)
        + (if isPlayer && bot.Some? && nearestExists then [LookAtNearest] else [])
        + (if attacked then [AttackNearest] else [])
    {
      attacked, threw := false, false;
      if isPlayer {
        if bot.None? {
          return false, true;
        }
        if nearestExists {
          effects := effects + [LookAtNearest];
          if killaura && Killaura.MayAttack(inRange, now, lastAttackTime) {
            effects := effects + [AttackNearest];
            lastAttackTime := now;
            attacked := true;
          }
        }
      }
    }

    /** `messageCreate`: a message from a human in the configured channel becomes a
        `/say` command, given to the session if there is one. */
    method OnMessage(channelId: string, authorIsBot: bool, username: string, cleaned: string, attachments: seq<string>)
      requires Valid()
      modifies this`commands
      ensures Valid()
      ensures commands == if Relay.ShouldForward(channelId, config.channel, authorIsBot) && bot.Some?
                          then old(commands) + [Relay.SayCommand(username, cleaned, attachments)]
                          else old(commands)
    {
      if Relay.ShouldForward(channelId, config.channel, authorIsBot) {
        var say := Relay.SayCommand(username, cleaned, attachments);
        if bot.Some? {
          commands := commands + [say];
        }
      }
    }

    /** `/online`: the reply for the current roster. */
    method OnOnline() returns (reply: string)
      requires Valid()
      ensures reply == Replies.OnlineReply(players)
    {
      reply := Replies.OnlineReply(players);
    }

    /** `/command`: only with a session and only for a member holding the configured
        role is the text given to the session; everyone else gets a refusal. */
    method OnCommand(command: string, memberRoles: seq<string>) returns (reply: string)
      requires Valid()
      modifies this`commands
      ensures Valid()
      ensures reply == Replies.NotConnected <==> bot.None?
      ensures bot.Some? && config.role in memberRoles ==>
        commands == old(commands) + [command] && reply == Replies.CommandSentReply(command)
      ensures bot.Some? && config.role !in memberRoles ==>
        commands == old(commands) && reply == Replies.MissingRoleReply(config.role)
      ensures bot.None? ==> commands == old(commands) && reply == Replies.NotConnected
    {
      if bot.None? {
        return Replies.NotConnected;
      }
      if config.role in memberRoles {
        commands := commands + [command];
        reply := Replies.CommandSentReply(command);
        assert reply[0] == 'S';
      } else {
        reply := Replies.MissingRoleReply(config.role);
        assert reply[0] == 'Y';
      }
      assert Replies.NotConnected[0] == 'T';
    }

    /** `/terminator` as intended, reading the option with the resolver's boolean
        getter: with a session, anyone may set terminator mode. */
    method OnTerminator(enabled: bool) returns (reply: string)
      requires Valid()
      modifies this`killaura
      ensures Valid()
      ensures bot.Some? ==> killaura == enabled && reply == Replies.TerminatorReply(enabled)
      ensures bot.None? ==> killaura == old(killaura) && reply == Replies.NotConnected
    {
      if bot.None? {
        return Replies.NotConnected;
      }
      killaura := enabled;
      reply := Replies.TerminatorReply(enabled);
    }

    /** The retry loop run to its end: the lookups answer with `probes` in turn, and
        each retry's timer fires before the next lookup starts. The loop stops at the
        first lookup that creates a session, which is the one `FirstConnect` names. */
    method RetryUntilConnected(probes: seq<Supervisor.Probe>) returns (used: nat)
      requires Valid()
      modifies this`pendingLookups, this`bot, this`sessions, this`spawned, this`players, this`lastAttackTime,
        this`awaitingSpawn, this`awaitingError, this`outbox, this`effects
      ensures Valid()
      ensures pendingLookups == old(pendingLookups)
      ensures commands == old(commands) && killaura == old(killaura)
      ensures Supervisor.FirstConnect(probes).Some? ==>
        used == Supervisor.FirstConnect(probes).value + 1 &&
        bot == Some(old(sessions)) && sessions == old(sessions) + 1 &&
        spawned == Some(false) && players == Some([]) &&
        lastAttackTime == 0 && awaitingSpawn && awaitingError &&
        outbox == Post(channelReady, old(outbox), Replies.Connecting(config.host)) &&
        effects == old(effects) + Retries(config.host, config.port, used - 1)
          + [Lookup(config.host, config.port), CreateSession(config.host, config.port, config.username, config.modded)]
      ensures Supervisor.FirstConnect(probes).None? ==>
        used == |probes| &&
        bot == old(bot) && sessions == old(sessions) && spawned == old(spawned) && players == old(players) &&
        lastAttackTime == old(lastAttackTime) && awaitingSpawn == old(awaitingSpawn) &&
        awaitingError == old(awaitingError) && outbox == old(outbox) &&
        effects == old(effects) + Retries(config.host, config.port, |probes|)
    {
      used := 0;
      var connected := false;
      while used < |probes| && !connected
        invariant Valid()
        invariant used <= |probes|
        invariant pendingLookups == old(pendingLookups)
        invariant commands == old(commands) && killaura == old(killaura) && channelReady == old(channelReady)
        invariant forall j :: 0 <= j < (if connected then used - 1 else used) ==>
          Supervisor.Decide(probes[j]) == Supervisor.RetryAfter(Supervisor.RetryDelay)
        invariant connected ==>
          used > 0 && Supervisor.Decide(probes[used - 1]) == Supervisor.Connect &&
          bot == Some(old(sessions)) && sessions == old(sessions) + 1 &&
          spawned == Some(false) && players == Some([]) &&
          lastAttackTime == 0 && awaitingSpawn && awaitingError &&
          outbox == Post(channelReady, old(outbox), Replies.Connecting(config.host)) &&
          effects == old(effects) + Retries(config.host, config.port, used - 1)
            + [Lookup(config.host, config.port), CreateSession(config.host, config.port, config.username, config.modded)]
        invariant !connected ==>
          bot == old(bot) && sessions == old(sessions) && spawned == old(spawned) && players == old(players) &&
          lastAttackTime == old(lastAttackTime) && awaitingSpawn == old(awaitingSpawn) &&
          awaitingError == old(awaitingError) && outbox == old(outbox) &&
          effects == old(effects) + Retries(config.host, config.port, used)
      {
        var before := effects;
        Reconnect();
        OnLookup(probes[used]);
        connected := Supervisor.Decide(probes[used]) == Supervisor.Connect;
        if !connected {
          assert effects == before + [Lookup(config.host, config.port), Schedule(Supervisor.RetryDelay, RetryReconnect)];
        }
        used := used + 1;
      }
    }

    /** `/terminator` as written: the option resolver has no `getBool` (its boolean
        getter is `getBoolean`), so with a session the handler throws before terminator
        mode is set or any reply is sent (`None`). Nothing changes either way. */
    method OnTerminatorAsWritten() returns (reply: Option<string>)
      requires Valid()
      ensures reply.None? <==> bot.Some?
      ensures bot.None? ==> reply == Some(Replies.NotConnected)
    {
      if bot.None? {
        return Some(Replies.NotConnected);
      }
      reply := None;
    }

    /** The ten-second activity refresh: the text shown for the current roster. */
    method ActivityTick() returns (activity: string)
      requires Valid()
      ensures activity == Replies.Activity(players)
    {
      activity := Replies.Activity(players);
    }
  }

  /** With a session, `/terminator` with `enabled` set arms terminator mode in the
      intended handler and leaves it off in the handler as written. */
  method TerminatorNeverArms() returns (asWritten: bool, intended: bool)
    ensures !asWritten && intended
  {
    var config := Config("play.example.org", 25565, "bridge", "channel", "admins", false);
    var written := new Relayer(config);
    written.CreateBot();
    var _ := written.OnTerminatorAsWritten();
    asWritten := written.killaura;
    var fixed := new Relayer(config);
    fixed.CreateBot();
    var _ := fixed.OnTerminator(true);
    intended := fixed.killaura;
  }
}
