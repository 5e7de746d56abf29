/** Collapsing of chat-platform custom-emoji references (index.js:52).

    A reference is `<`, an optional `a` (animated), `:`, a name of one or more
    ASCII letters, digits or underscores, `:`, one or more ASCII digits (the
    emoji's id) and `>`. The global replace scans left to right: where a
    reference starts it is replaced by `:name:` and the scan resumes after it;
    anywhere else one character is copied. Because the name and id classes
    exclude the delimiters that follow them, the pattern never has to
    backtrack, so the match at a position is unique. */
module Emoji {
  import opened Options
  import Text

  predicate IsNameChar(c: char)
  {
    'a' <= c <= 'z' || 'A' <= c <= 'Z' || '0' <= c <= '9' || c == '_'
  }

  /** Every character is a name character (stated recursively, which keeps the
      verifier from expanding it wherever a name is indexed). */
  predicate IsNameText(s: string)
  {
    s == [] || (IsNameChar(s[0]) && IsNameText(s[1..]))
  }

  /** Every character is an ASCII digit: `Text.AllDigits` stated recursively, like
      `IsNameText`, which keeps the proofs about matching small. */
  predicate IsIdText(s: string)
  {
    s == [] || (Text.IsDigit(s[0]) && IsIdText(s[1..]))
  }

  /** The recursive and the quantified forms agree. */
  lemma {:induction false} IdTextIsAllDigits(s: string)
    ensures IsIdText(s) <==> Text.AllDigits(s)
  {
    if s != [] {
      IdTextIsAllDigits(s[1..]);
      assert forall i :: 0 < i < |s| ==> s[i] == s[1..][i - 1];
    }
  }

  /** The length of the longest prefix of `s` made of name characters. */
  function NameRun(s: string): (n: nat)
    ensures n <= |s|
    ensures n < |s| ==> !IsNameChar(s[n])
  {
    if s != [] && IsNameChar(s[0]) then 1 + NameRun(s[1..]) else 0
  }

  /** The length of the longest prefix of `s` made of digits. */
  function DigitRun(s: string): (n: nat)
    ensures n <= |s|
    ensures n < |s| ==> !Text.IsDigit(s[n])
  {
    if s != [] && Text.IsDigit(s[0]) then 1 + DigitRun(s[1..]) else 0
  }

  /** A reference found at the start of a string: the emoji's name and the
      number of characters the reference occupies. */
  datatype Found = Found(name: string, len: nat)

  /** The length of the id when `u` starts with one or more digits and a closing `>`. */
  function MatchId(u: string): (d: Option<nat>)
    ensures d.Some? ==> 0 < d.value && d.value + 1 <= |u|
  {
    var d := DigitRun(u);
    if d == 0 || d >= |u| || u[d] != '>' then None else Some(d)
  }

  /** The reference whose opening (`<:` or `<a:`, `k` characters) has been read and
      whose name, `:`, id and `>` must start `t`. */
  function MatchBody(t: string, k: nat): (m: Option<Found>)
    ensures m.Some? ==> |m.value.name| + 3 + k <= m.value.len <= |t| + k
  {
    var n := NameRun(t);
    if n == 0 || n >= |t| || t[n] != ':' then None
    else
      match MatchId(t[n + 1..])
      case None => None
      case Some(d) => Some(Found(t[..n], k + n + 1 + d + 1))
  }

  /** The reference that starts `s`, if one does. */
  function MatchRef(s: string): (m: Option<Found>)
    ensures m.Some? ==> |m.value.name| + 5 <= m.value.len <= |s|
  {
    if |s| < 2 || s[0] != '<' then None
    else if s[1] == ':' then MatchBody(s[2..], 2)
    else if |s| > 2 && s[1] == 'a' && s[2] == ':' then MatchBody(s[3..], 3)
    else None
  }

  /** The text with every custom-emoji reference collapsed to `:name:`.
      Each replacement is shorter than what it replaces, so the text never grows. */
  function Collapse(s: string): (r: string)
    ensures |r| <= |s|
    decreases |s|
  {
    if s == [] then []
    else
      match MatchRef(s)
      case Some(m) => ":" + m.name + ":" + Collapse(s[m.len..])
      case None => [s[0]] + Collapse(s[1..])
  }

  /** The written form of a reference, `<:name:id>` or `<a:name:id>`. */
  function Reference(animated: bool, name: string, id: string): string
  {
    Opening(animated) + Tail(name, id)
  }

  function Opening(animated: bool): string
  {
    if animated then "<a:" else "<:"
  }

  function Tail(name: string, id: string): string
  {
    name + ":" + id + ">"
  }

  lemma {:induction false} NameRunOf(s: string, q: string)
    requires IsNameText(s)
    requires q == [] || !IsNameChar(q[0])
    ensures NameRun(s + q) == |s|
  {
    if s != [] {
      assert (s + q)[0] == s[0];
      assert (s + q)[1..] == s[1..] + q;
      NameRunOf(s[1..], q);
    } else {
      assert s + q == q;
    }
  }

  lemma {:induction false} DigitRunOf(s: string, q: string)
    requires IsIdText(s)
    requires q == [] || !Text.IsDigit(q[0])
    ensures DigitRun(s + q) == |s|
  {
    if s != [] {
      assert (s + q)[0] == s[0];
      assert (s + q)[1..] == s[1..] + q;
      DigitRunOf(s[1..], q);
    } else {
      assert s + q == q;
    }
  }

  lemma MatchIdOf(id: string, rest: string)
    requires |id| > 0 && IsIdText(id)
    ensures MatchId(id + (">" + rest)) == Some(|id|)
  {
    DigitRunOf(id, ">" + rest);
    assert (id + (">" + rest))[|id|] == '>';
  }

  lemma TailThen(name: string, id: string, rest: string)
    ensures Tail(name, id) + rest == name + (":" + (id + (">" + rest)))
  {
  }

  lemma AroundColon(name: string, after: string)
    ensures |name + (":" + after)| > |name|
    ensures (name + (":" + after))[|name|] == ':'
    ensures (name + (":" + after))[|name| + 1..] == after
    ensures (name + (":" + after))[..|name|] == name
  {
  }

  lemma MatchBodyOf(name: string, id: string, rest: string, k: nat)
    requires |name| > 0 && IsNameText(name)
    requires |id| > 0 && IsIdText(id)
    ensures MatchBody(Tail(name, id) + rest, k) == Some(Found(name, k + |Tail(name, id)|))
  {
    var after := id + (">" + rest);
    TailThen(name, id, rest);
    NameRunOf(name, ":" + after);
    AroundColon(name, after);
    MatchIdOf(id, rest);
  }

  lemma ReferenceThen(animated: bool, name: string, id: string, rest: string)
    ensures Reference(animated, name, id) + rest == Opening(animated) + (Tail(name, id) + rest)
  {
  }

  /** After an opening, matching continues with the name. */
  lemma MatchAfterOpening(animated: bool, t: string)
    ensures MatchRef(Opening(animated) + t) == MatchBody(t, |Opening(animated)|)
  {
    var s := Opening(animated) + t;
    assert s[|Opening(animated)|..] == t;
    if animated {
      assert s[0] == '<' && s[1] == 'a' && s[2] == ':';
    } else {
      assert s[0] == '<' && s[1] == ':';
    }
  }

  /** A well-formed reference is recognised, whatever follows it, with its own name and length. */
  lemma MatchReference(animated: bool, name: string, id: string, rest: string)
    requires |name| > 0 && IsNameText(name)
    requires |id| > 0 && IsIdText(id)
    ensures MatchRef(Opening(animated) + (Tail(name, id) + rest))
         == Some(Found(name, |Opening(animated)| + |Tail(name, id)|))
  {
    var t := Tail(name, id) + rest;
    calc {
      MatchRef(Opening(animated) + t);
      { MatchAfterOpening(animated, t); }
      MatchBody(t, |Opening(animated)|);
      { MatchBodyOf(name, id, rest, |Opening(animated)|); }
      Some(Found(name, |Opening(animated)| + |Tail(name, id)|));
    }
  }

  /** The name run of any text is name text. */
  lemma {:induction false} NameRunText(s: string)
    ensures IsNameText(s[..NameRun(s)])
  {
    var n := NameRun(s);
    if n > 0 {
      NameRunText(s[1..]);
      assert s[..n][1..] == s[1..][..n - 1];
    }
  }

  /** The digit run of any text is id text. */
  lemma {:induction false} DigitRunText(s: string)
    ensures IsIdText(s[..DigitRun(s)])
  {
    var n := DigitRun(s);
    if n > 0 {
      DigitRunText(s[1..]);
      assert s[..n][1..] == s[1..][..n - 1];
    }
  }

  /** What `MatchBody` accepts is a name, `:`, an id and `>`, and nothing longer. */
  lemma MatchBodySound(t: string, k: nat)
    requires MatchBody(t, k).Some?
    ensures var m := MatchBody(t, k).value;
      |m.name| > 0 && IsNameText(m.name) &&
      exists id: string :: |id| > 0 && IsIdText(id) && m.len == k + |Tail(m.name, id)| && Tail(m.name, id) <= t
  {
    var n := NameRun(t);
    NameRunText(t);
    var u := t[n + 1..];
    var d := DigitRun(u);
    DigitRunText(u);
    var id := u[..d];
    assert t[n] == ':' && u[d] == '>';
    assert t[..n + 1 + d + 1] == t[..n] + [t[n]] + u[..d] + [u[d]];
    assert Tail(t[..n], id) <= t;
  }

  /** A reference starts `s`: `<:name:id>` or `<a:name:id>` with a non-empty name of
      name characters and a non-empty id of digits. */
  ghost predicate StartsReference(s: string)
  {
    exists animated: bool, name: string, id: string ::
      |name| > 0 && IsNameText(name) && |id| > 0 && IsIdText(id) && Reference(animated, name, id) <= s
  }

  /** A recognised reference opens with `<:` or `<a:`, and matching continues after it. */
  lemma OpeningOf(s: string)
    requires MatchRef(s).Some?
    ensures var k := |Opening(s[1] != ':')|;
      s[..k] == Opening(s[1] != ':') && MatchRef(s) == MatchBody(s[k..], k)
  {
    if s[1] == ':' {
      assert s[..2] == "<:";
    } else {
      assert s[..3] == "<a:";
    }
  }

  /** An opening followed by a tail that starts the rest of `s` is a reference that starts `s`. */
  lemma ReferencePrefix(animated: bool, name: string, id: string, s: string)
    requires Opening(animated) <= s && Tail(name, id) <= s[|Opening(animated)|..]
    ensures Reference(animated, name, id) <= s
  {
    var k := |Opening(animated)|;
    assert s[..k + |Tail(name, id)|] == s[..k] + s[k..][..|Tail(name, id)|];
  }

  /** What `MatchRef` recognises is exactly a reference with the reported name and length. */
  lemma MatchRefSound(s: string)
    requires MatchRef(s).Some?
    ensures var m := MatchRef(s).value;
      exists animated: bool, id: string ::
        |m.name| > 0 && IsNameText(m.name) && |id| > 0 && IsIdText(id) &&
        |Reference(animated, m.name, id)| == m.len && Reference(animated, m.name, id) <= s
  {
    var animated := s[1] != ':';
    var k := |Opening(animated)|;
    OpeningOf(s);
    MatchBodySound(s[k..], k);
    var m := MatchRef(s).value;
    var id: string :| |id| > 0 && IsIdText(id) && m.len == k + |Tail(m.name, id)| && Tail(m.name, id) <= s[k..];
    ReferencePrefix(animated, m.name, id, s);
  }

  /** A reference is recognised at the start of `s` if and only if one starts there. */
  lemma MatchRefIff(s: string)
    ensures MatchRef(s).Some? <==> StartsReference(s)
  {
    if MatchRef(s).Some? {
      MatchRefSound(s);
    }
    if StartsReference(s) {
      var animated: bool, name: string, id: string :|
        |name| > 0 && IsNameText(name) && |id| > 0 && IsIdText(id) && Reference(animated, name, id) <= s;
      var rest := s[|Reference(animated, name, id)|..];
      assert s == Reference(animated, name, id) + rest;
      ReferenceThen(animated, name, id, rest);
      MatchReference(animated, name, id, rest);
    }
  }

  /** Where no reference starts, the regular expression does not match and the
      character, a `<` included, is kept. */
  lemma CollapseNoReference(s: string)
    requires s != [] && !StartsReference(s)
    ensures Collapse(s) == [s[0]] + Collapse(s[1..])
  {
    MatchRefIff(s);
  }

  /** No reference starts at any position of `p` inside the text `p + rest`. */
  ghost predicate NoReferenceIn(p: string, rest: string)
  {
    p == [] || (!StartsReference(p + rest) && NoReferenceIn(p[1..], rest))
  }

  /** Text at none of whose positions a reference starts passes through unchanged. */
  lemma {:induction false} CollapseKeeps(p: string, rest: string)
    requires NoReferenceIn(p, rest)
    ensures Collapse(p + rest) == p + Collapse(rest)
  {
    if p != [] {
      var s := p + rest;
      CollapseNoReference(s);
      assert s[1..] == p[1..] + rest;
      CollapseKeeps(p[1..], rest);
      assert p == [p[0]] + p[1..];
    } else {
      assert p + rest == rest;
    }
  }

  /** Where the match fails, the scan copies one character and moves on: the step
      `CollapseNoReference` states in terms of references, for callers that have
      computed the match directly. */
  lemma CollapseCopies(s: string)
    requires s != [] && MatchRef(s) == None
    ensures Collapse(s) == [s[0]] + Collapse(s[1..])
  {
  }

  /** Text without `<` passes through the scan unchanged: the case of `CollapseKeeps`
      that needs no search for references, since none can start without a `<`. */
  lemma {:induction false} CollapsePlain(p: string, rest: string)
    requires '<' !in p
    ensures Collapse(p + rest) == p + Collapse(rest)
  {
    if p != [] {
      var s := p + rest;
      assert s[0] == p[0] && s[0] != '<';
      assert MatchRef(s) == None;
      CollapseCopies(s);
      assert s[1..] == p[1..] + rest;
      CollapsePlain(p[1..], rest);
      assert p == [p[0]] + p[1..];
    } else {
      assert p + rest == rest;
    }
  }

  /** A message with no `<` in it is forwarded verbatim. */
  lemma CollapseNoAngle(s: string)
    requires '<' !in s
    ensures Collapse(s) == s
  {
    CollapsePlain(s, "");
    assert s + "" == s;
  }

  /** A reference at the front becomes `:name:` and the scan resumes right after it. */
  lemma CollapseReference(animated: bool, name: string, id: string, rest: string)
    requires |name| > 0 && IsNameText(name)
    requires |id| > 0 && IsIdText(id)
    ensures Collapse(Reference(animated, name, id) + rest) == ":" + name + ":" + Collapse(rest)
  {
    var s := Reference(animated, name, id) + rest;
    ReferenceThen(animated, name, id, rest);
    MatchReference(animated, name, id, rest);
    assert s[|Opening(animated)| + |Tail(name, id)|..] == rest;
  }

  /** A `<` that opens no reference, followed by text without `<`, is kept as it is. */
  lemma CollapseLoneAngle(x: string)
    requires '<' !in x && MatchRef("<" + x) == None
    ensures Collapse("<" + x) == "<" + x
  {
    CollapseCopies("<" + x);
    assert ("<" + x)[1..] == x;
    CollapseNoAngle(x);
  }

  /** Text the regular expression does not match is kept, `<` and all. */
  lemma StrayHeart()
    ensures Collapse("<3") == "<3"
  {
    CollapseLoneAngle("3");
  }

  lemma EmptyId()
    ensures Collapse("<:a:>") == "<:a:>"
  {
    assert NameRun("a:>") == 1;
    assert MatchId(">") == None;
    CollapseLoneAngle(":a:>");
  }

  /** A message seen as a sequence of plain runs and emoji references. */
  datatype Piece = Plain(text: string) | Emoji(animated: bool, name: string, id: string)

  predicate WellFormed(p: Piece)
  {
    match p
    case Plain(t) => '<' !in t
    case Emoji(_, name, id) => |name| > 0 && IsNameText(name) && |id| > 0 && IsIdText(id)
  }

  /** The message text as written on the chat platform. */
  function Written(ps: seq<Piece>): string
  {
    if ps == [] then ""
    else
      (match ps[0]
       case Plain(t) => t
       case Emoji(a, name, id) => Reference(a, name, id)) + Written(ps[1..])
  }

  /** The message text as it should reach the game: each reference shown as `:name:`. */
  function Shown(ps: seq<Piece>): string
  {
    if ps == [] then ""
    else
      (match ps[0]
       case Plain(t) => t
       case Emoji(_, name, _) => ":" + name + ":") + Shown(ps[1..])
  }

  /** Collapsing a written message gives exactly its shown form. */
  lemma {:induction false} CollapseWritten(ps: seq<Piece>)
    requires forall k :: 0 <= k < |ps| ==> WellFormed(ps[k])
    ensures Collapse(Written(ps)) == Shown(ps)
  {
    if ps != [] {
      CollapseWritten(ps[1..]);
      match ps[0]
      case Plain(t) =>
        CollapsePlain(t, Written(ps[1..]));
      case Emoji(a, name, id) =>
        CollapseReference(a, name, id, Written(ps[1..]));
    }
  }
}
