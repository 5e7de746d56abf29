/** The texts the bridge writes: notifications to the chat channel, replies to
    slash commands, and the presence activity (index.js:37-47, 60-95, 101-159). */
module Replies {
  import opened Options
  import Text

  /** A notification posted to the bridged channel by a game-session handler. */
  datatype Notice =
    | Connecting(host: string)
    | Joined(name: string)
    | Left(name: string)
    | Chat(username: string, message: string)
    | Whisper(username: string, message: string)
    | Kicked(reason: string)
    | Disconnected
    | Spawned
    | Crashed(error: string)

  /** The text the channel shows for a notification. Each emoji badge is a literal of
      its own, since the prover reads single characters only of short literals. */
  function NoticeText(n: Notice): (r: string)
    ensures |r| > 0
    ensures r[0] == '*' <==> n.Chat? || n.Whisper?
  {
    match n
    case Connecting(host) => "<:despair:1138855750106632413>" + " Connecting to `" + host + "`"
    case Joined(name) => "<:Clueless:1268276497727098910>" + " " + name + " joined the game"
    case Left(name) => "<:pointandlaugh:1138432278003974185>" + " " + name + " left the game"
    case Chat(username, message) => "*" + username + "*: " + message
    case Whisper(username, message) => "*" + username + " whispered to me*: " + message
    case Kicked(reason) => "<:TrollShrug:1256731287310569563>" + " Bot got kicked: " + reason
    case Disconnected => "<:awooga:1138432126820286496>" + " The bot got disconnected"
    case Spawned => "<:letsgoo:1138432150304210996>" + " Successfully joined the server"
    case Crashed(error) => "<:pointandlaugh:1138432278003974185>" + " The bot crashed: `" + error + "`"
  }

  /** Game chat is shown in a form no status notification takes, so a player cannot
      make a chat line read as a join, a leave, a kick or any other status. */
  lemma ChatCannotPassForStatus(username: string, message: string, status: Notice)
    requires !status.Chat? && !status.Whisper?
    ensures NoticeText(Chat(username, message)) != NoticeText(status)
    ensures NoticeText(Whisper(username, message)) != NoticeText(status)
  {
  }

  /** A kick reason that starts with `{` is structured text and is shown in the
      game's formatting (`formatted`, produced by a library); any other reason as it is. */
  function KickReason(reason: string, formatted: string): (r: string)
    ensures r == reason || r == formatted
    ensures r != reason ==> |reason| > 0 && reason[0] == '{'
    ensures |reason| > 0 && reason[0] == '{' ==> r == formatted
  {
    if |reason| > 0 && reason[0] == '{' then formatted else reason
  }

  // Replies to slash commands.

  // Written in two parts: the prover reads single characters only of short literals.
  const NotConnected := "The bot is currently " + "not connected to the server."
  const NoPlayers := "No players are currently online."
  const OnlinePrefix := "Currently online players: "

  /** The `/online` reply for the roster (`None` while no session exists). */
  function OnlineReply(players: Option<seq<string>>): (r: string)
    ensures r == NotConnected <==> players.None?
    ensures r == NoPlayers <==> players == Some([])
    ensures players.Some? && players.value != [] ==> r == OnlinePrefix + Text.Join(players.value, ", ")
  {
    match players
    case None => NotConnected
    case Some(names) =>
      if |names| == 0 then NoPlayers
      else
        var r := OnlinePrefix + Text.Join(names, ", ");
        assert r[0] == 'C' && NotConnected[0] == 'T' && NoPlayers[0] == 'N';
        r
  }

  /** Reads an `/online` reply back: what a user learns about the roster. */
  function ParseOnlineReply(r: string): Option<seq<string>>
  {
    if r == NotConnected then None
    else if r == NoPlayers then Some([])
    else if |r| >= |OnlinePrefix| && r[..|OnlinePrefix|] == OnlinePrefix then Some(Text.Split(r[|OnlinePrefix|..]))
    else None
  }

  /** The `/online` reply tells the three roster states apart and lists every name in
      order; player names cannot contain commas, so the list can be read back. */
  lemma OnlineReplyReadable(players: Option<seq<string>>)
    requires players.Some? ==> forall k :: 0 <= k < |players.value| ==> Text.CommaFree(players.value[k])
    ensures ParseOnlineReply(OnlineReply(players)) == players
  {
    if players.Some? && players.value != [] {
      var list := Text.Join(players.value, ", ");
      var r := OnlinePrefix + list;
      assert r[..|OnlinePrefix|] == OnlinePrefix && r[|OnlinePrefix|..] == list;
      Text.SplitJoin(players.value);
    }
  }

  function CommandSentReply(command: string): string
  {
    "Successfully sent command `" + command + "`"
  }

  function MissingRoleReply(role: string): string
  {
    "You don't have the <@&" + role + ">"
  }

  function TerminatorReply(enabled: bool): string
  {
    if enabled then "The terminator shall expunge every player on spawn"
    else "The bot has been downgraded to a noob"
  }

  // The presence activity refreshed every ten seconds.

  const EmptyServer := "an empty server"
  const PlayersSuffix := " players"

  /** "an empty server" while there is no session or nobody is present, else "<count> players". */
  function Activity(players: Option<seq<string>>): (a: string)
    ensures a == EmptyServer <==> players.None? || players.value == []
  {
    if players.Some? && |players.value| > 0 then
      var a := Text.Decimal(|players.value|) + PlayersSuffix;
      assert Text.IsDigit(a[0]) && !Text.IsDigit(EmptyServer[0]);
      a
    else EmptyServer
  }

  /** The number of players an activity text announces. */
  function AnnouncedCount(a: string): nat
  {
    if |a| > |PlayersSuffix| && a[|a| - |PlayersSuffix|..] == PlayersSuffix && Text.AllDigits(a[..|a| - |PlayersSuffix|])
    then Text.ParseDecimal(a[..|a| - |PlayersSuffix|])
    else 0
  }

  /** The activity announces exactly the roster's size, and zero when there is no session. */
  lemma ActivityCount(players: Option<seq<string>>)
    ensures AnnouncedCount(Activity(players)) == if players.Some? then |players.value| else 0
  {
    if players.Some? && |players.value| > 0 {
      var n := |players.value|;
      var d := Text.Decimal(n);
      var a := d + PlayersSuffix;
      assert a[|a| - |PlayersSuffix|..] == PlayersSuffix;
      assert a[..|a| - |PlayersSuffix|] == d;
      Text.ParseDecimalInverse(n);
      assert a[0] == d[0] && Text.IsDigit(d[0]);
    } else {
      assert EmptyServer[|EmptyServer| - |PlayersSuffix|..] != PlayersSuffix;
    }
  }
}
