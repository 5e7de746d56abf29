/** The inbound half of the bridge: a chat-platform message becomes one `/say`
    command in the game (index.js:50-56). The platform's own mention resolution
    (`cleanContent`) is a library call; its output is the `cleaned` input here. */
module Relay {
  import Text
  import Emoji

  /** Only messages posted in the configured channel by a human author are forwarded. */
  predicate ShouldForward(channelId: string, configuredChannel: string, authorIsBot: bool)
    ensures authorIsBot ==> !ShouldForward(channelId, configuredChannel, authorIsBot)
    ensures channelId != configuredChannel ==> !ShouldForward(channelId, configuredChannel, authorIsBot)
  {
    channelId == configuredChannel && !authorIsBot
  }

  /** The attachment file names, each wrapped as `[name]`, separated by single spaces. */
  function AttachmentList(names: seq<string>): (r: string)
    ensures r == "" <==> names == []
  {
    var parts := seq(|names|, k requires 0 <= k < |names| => "[" + names[k] + "]");
    if names != [] then
      Text.JoinPrefix(parts, " ");
      Text.Join(parts, " ")
    else
      Text.Join(parts, " ")
  }

  /** The command sent to the game for a message from `username`. The attachment
      list is appended after one space, and only when it is not empty. */
  function SayCommand(username: string, cleaned: string, attachments: seq<string>): (r: string)
    ensures "/say <" + username + "> " <= r
    ensures |r| <= |"/say <" + username + "> "| + |cleaned| + (if attachments == [] then 0 else 1 + |AttachmentList(attachments)|)
  {
    var body := Emoji.Collapse(cleaned);
    var list := AttachmentList(attachments);
    "/say <" + username + "> " + (if list != "" then body + " " + list else body)
  }

  /** A non-empty attachment list opens with the first one in brackets. */
  lemma AttachmentListFirst(names: seq<string>)
    ensures names != [] ==> |AttachmentList(names)| >= |names[0]| + 2
    ensures names != [] ==> AttachmentList(names)[..|names[0]| + 2] == "[" + names[0] + "]"
  {
    if names != [] {
      var parts := seq(|names|, k requires 0 <= k < |names| => "[" + names[k] + "]");
      Text.JoinPrefix(parts, " ");
      assert parts[0] == "[" + names[0] + "]";
    }
  }

  /** Without attachments the command is the prefix and the collapsed text, nothing more. */
  lemma SayWithoutAttachments(username: string, cleaned: string)
    ensures SayCommand(username, cleaned, []) == "/say <" + username + "> " + Emoji.Collapse(cleaned)
  {
    assert AttachmentList([]) == "";
  }

  /** With attachments the bracketed list follows the collapsed text after one space. */
  lemma SayWithAttachments(username: string, cleaned: string, names: seq<string>)
    requires names != []
    ensures SayCommand(username, cleaned, names)
         == "/say <" + username + "> " + Emoji.Collapse(cleaned) + " " + AttachmentList(names)
  {
    assert AttachmentList(names) != "";
  }

  /** A message made of plain text and emoji references reaches the game with every
      reference shown as `:name:` and the plain text untouched. */
  lemma SayOfWrittenMessage(username: string, ps: seq<Emoji.Piece>)
    requires forall k :: 0 <= k < |ps| ==> Emoji.WellFormed(ps[k])
    ensures SayCommand(username, Emoji.Written(ps), []) == "/say <" + username + "> " + Emoji.Shown(ps)
  {
    SayWithoutAttachments(username, Emoji.Written(ps));
    Emoji.CollapseWritten(ps);
  }
}
