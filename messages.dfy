/** The text the bot sends: the new-project notification (ScratchNotifyMe.py:98, 102)
    and the replies to the three slash commands (ScratchNotifyMe.py:48, 60, 74, 76, 90, 93).
    Every message is a function of its inputs alone. */
module Messages {

  import opened Wrappers
  import opened Decimal
  import opened Scratch

  const LinkPrefix := "https://scratch.mit.edu/projects/"
  const LinkLabel := "Link: "

  /** The canonical project page: `https://scratch.mit.edu/projects/<id>/`. */
  function Link(id: int): string {
    LinkPrefix + IntToString(id) + "/"
  }

  /** The notification for a new project: three lines naming the user, the title and
      the link. */
  function Render(username: string, project: Project): string {
    "New project by **" + username + "**!\nTitle: " + project.title + "\n" + LinkLabel + Link(project.id)
  }

  /** The text after the last newline of `s` (all of `s` if it has none). */
  function LastLine(s: string): (line: string)
    ensures '\n' !in line
    ensures |line| <= |s| && line == s[|s| - |line|..]
  {
    if s == [] || s[|s| - 1] == '\n' then []
    else LastLine(s[..|s| - 1]) + [s[|s| - 1]]
  }

  /** Reads a project id back from a link line `Link: https://scratch.mit.edu/projects/<id>/`. */
  function ParseLinkLine(line: string): Option<int> {
    var head := LinkLabel + LinkPrefix;
    if |line| > |head| && line[..|head|] == head && line[|line| - 1] == '/' then
      ParseInt(line[|head|..|line| - 1])
    else None
  }

  lemma {:induction false} LastLineAfterNewline(s: string, t: string)
    requires '\n' !in t
    ensures LastLine(s + "\n" + t) == t
  {
    if t != [] {
      var u := s + "\n" + t;
      assert u[..|u| - 1] == s + "\n" + t[..|t| - 1];
      LastLineAfterNewline(s, t[..|t| - 1]);
      assert t == t[..|t| - 1] + [t[|t| - 1]];
    }
  }

  /** The last line of a notification is its link line, and the project id can be read
      back from it: the link names exactly the project the message is about. */
  lemma RenderedLinkRoundTrip(username: string, project: Project)
    ensures ParseLinkLine(LastLine(Render(username, project))) == Some(project.id)
  {
    var line := LinkLabel + Link(project.id);
    LinkLineHasNoNewline(project.id);
    assert Render(username, project)
      == ("New project by **" + username + "**!\nTitle: " + project.title) + "\n" + line;
    LastLineAfterNewline("New project by **" + username + "**!\nTitle: " + project.title, line);
    LinkLineParses(project.id);
  }

  /** The link line reads back as the id it was written from. */
  lemma LinkLineParses(id: int)
    ensures ParseLinkLine(LinkLabel + Link(id)) == Some(id)
  {
    var digits := IntToString(id);
    var line := LinkLabel + Link(id);
    var head := LinkLabel + LinkPrefix;
    assert line == head + digits + "/";
    assert line[..|head|] == head;
    assert line[|head|..|line| - 1] == digits;
    IntRoundTrip(id);
  }

  /** Notifications about two different projects never have the same text. */
  lemma RenderDistinguishesProjects(u1: string, p1: Project, u2: string, p2: Project)
    requires p1.id != p2.id
    ensures Render(u1, p1) != Render(u2, p2)
  {
    RenderedLinkRoundTrip(u1, p1);
    RenderedLinkRoundTrip(u2, p2);
  }

  /** Split on newlines, a notification is three lines: who posted, the title, and the
      link, when neither the username nor the title holds a newline. */
  lemma RenderLines(username: string, project: Project)
    requires '\n' !in username && '\n' !in project.title
    ensures SplitLines(Render(username, project))
      == ["New project by **" + username + "**!", "Title: " + project.title, LinkLabel + Link(project.id)]
  {
    var first := "New project by **" + username + "**!";
    var second := "Title: " + project.title;
    var third := LinkLabel + Link(project.id);
    NoNewlineAround("New project by **", username, "**!");
    NoNewlineAround("Title: ", project.title, "");
    LinkLineHasNoNewline(project.id);
    RenderShape(username, project);
    SplitFirstLine(first, second + "\n" + third);
    SplitTwoLines(second, third);
  }

  lemma RenderShape(username: string, project: Project)
    ensures Render(username, project)
      == ("New project by **" + username + "**!") + "\n"
         + (("Title: " + project.title) + "\n" + (LinkLabel + Link(project.id)))
  {
  }

  lemma SplitTwoLines(first: string, second: string)
    requires '\n' !in first + "" && '\n' !in second
    ensures SplitLines(first + "\n" + second) == [first, second]
  {
    assert first + "" == first;
    SplitFirstLine(first, second);
    NoNewlineIndex(second, []);
    assert second + [] == second;
  }

  lemma NoNewlineAround(before: string, s: string, after: string)
    requires '\n' !in before && '\n' !in s && '\n' !in after
    ensures '\n' !in before + s + after
  {
    var t := before + s + after;
    forall k | 0 <= k < |t| ensures t[k] != '\n' {
      if k < |before| {
        assert t[k] == before[k];
      } else if k < |before| + |s| {
        assert t[k] == s[k - |before|];
      } else {
        assert t[k] == after[k - |before| - |s|];
      }
    }
  }

  lemma LinkLineHasNoNewline(id: int)
    ensures '\n' !in LinkLabel + Link(id)
  {
    var line := LinkLabel + Link(id);
    var digits := IntToString(id);
    var head := LinkLabel + LinkPrefix;
    assert line == head + digits + "/";
    forall k | 0 <= k < |line| ensures line[k] != '\n' {
      if |head| <= k < |head| + |digits| {
        assert line[k] == digits[k - |head|];
      }
    }
  }

  // Replies to the slash commands.

  function AlreadyTrackedReply(username: string): string {
    "**" + username + "** is already being tracked in this channel."
  }

  function StartedTrackingReply(username: string): string {
    "Started tracking **" + username + "**'s projects in this channel."
  }

  function StoppedTrackingReply(username: string): string {
    "Stopped tracking **" + username + "**'s projects in this channel/DM."
  }

  function NotTrackedReply(username: string): string {
    "**" + username + "** is not being tracked in this channel/DM."
  }

  /** The two replies of `/adduser` differ, and so do the two of `/deluser`: the reply
      tells the caller which branch was taken. */
  lemma RepliesTellOutcome(u: string, v: string)
    ensures AlreadyTrackedReply(u) != StartedTrackingReply(v)
    ensures StoppedTrackingReply(u) != NotTrackedReply(v)
  {
    assert AlreadyTrackedReply(u)[0] == '*' && StartedTrackingReply(v)[0] == 'S';
    assert StoppedTrackingReply(u)[0] == 'S' && NotTrackedReply(v)[0] == '*';
  }

  const NoneTrackedReply := "No Scratch users are being tracked" + " in this channel/DM."

  const TrackedListTitle := "Tracked users in this channel/DM:"

  /** `"\n".join(lines)`. */
  function JoinLines(lines: seq<string>): string {
    if lines == [] then ""
    else if |lines| == 1 then lines[0]
    else lines[0] + "\n" + JoinLines(lines[1..])
  }

  /** The index of the first newline of `s`, or `|s|` when there is none. */
  function NewlineIndex(s: string): (i: nat)
    ensures i <= |s|
    ensures forall k :: 0 <= k < i ==> s[k] != '\n'
    ensures i < |s| ==> s[i] == '\n'
  {
    if s == [] || s[0] == '\n' then 0 else 1 + NewlineIndex(s[1..])
  }

  /** `s.split("\n")`. */
  function SplitLines(s: string): (lines: seq<string>)
    ensures |lines| > 0
    decreases |s|
  {
    var i := NewlineIndex(s);
    if i == |s| then [s] else [s[..i]] + SplitLines(s[i + 1..])
  }

  /** The username list of `view_users`, one bold name per line. */
  function BoldNames(names: seq<string>): (lines: seq<string>)
    ensures |lines| == |names|
    ensures forall k :: 0 <= k < |names| ==> lines[k] == "**" + names[k] + "**"
  {
    seq(|names|, k requires 0 <= k < |names| => "**" + names[k] + "**")
  }

  function TrackedListReply(names: seq<string>): string {
    TrackedListTitle + "\n" + JoinLines(BoldNames(names))
  }

  /** Joining lines that hold no newline and splitting the result gives the lines back. */
  lemma {:induction false} SplitJoinRoundTrip(lines: seq<string>)
    requires |lines| > 0
    requires forall k :: 0 <= k < |lines| ==> '\n' !in lines[k]
    ensures SplitLines(JoinLines(lines)) == lines
  {
    var first := lines[0];
    if |lines| == 1 {
      assert first + [] == first;
      NoNewlineIndex(first, []);
      assert SplitLines(first) == [first];
      assert JoinLines(lines) == first;
    } else {
      var rest := JoinLines(lines[1..]);
      assert JoinLines(lines) == first + "\n" + rest;
      SplitFirstLine(first, rest);
      SplitJoinRoundTrip(lines[1..]);
      assert lines == [first] + lines[1..];
    }
  }

  lemma SplitFirstLine(first: string, rest: string)
    requires '\n' !in first
    ensures SplitLines(first + "\n" + rest) == [first] + SplitLines(rest)
  {
    var s := first + "\n" + rest;
    assert s == first + ("\n" + rest);
    NoNewlineIndex(first, "\n" + rest);
    assert s[..|first|] == first;
    assert s[|first| + 1..] == rest;
  }

  lemma {:induction false} NoNewlineIndex(s: string, t: string)
    requires '\n' !in s
    requires t == [] || t[0] == '\n'
    ensures NewlineIndex(s + t) == |s|
  {
    if s != [] {
      assert (s + t)[1..] == s[1..] + t;
      NoNewlineIndex(s[1..], t);
    }
  }

  /** Each line of a non-empty `view_users` listing (after the header) names one tracked
      user, in order, when no username holds a newline. */
  lemma TrackedListLines(names: seq<string>)
    requires |names| > 0
    requires forall k :: 0 <= k < |names| ==> '\n' !in names[k]
    ensures SplitLines(TrackedListReply(names)) == [TrackedListTitle] + BoldNames(names)
    ensures TrackedListReply(names) != NoneTrackedReply
  {
    var bold := BoldNames(names);
    forall k | 0 <= k < |bold| ensures '\n' !in bold[k] {
      BoldHasNoNewline(names[k]);
    }
    SplitJoinRoundTrip(bold);
    var body := JoinLines(bold);
    assert '\n' !in TrackedListTitle;
    SplitFirstLine(TrackedListTitle, body);
    ListingIsNotNoneTracked(names);
  }

  lemma ListingIsNotNoneTracked(names: seq<string>)
    ensures TrackedListReply(names) != NoneTrackedReply
  {
    var r := TrackedListReply(names);
    assert r[0] == TrackedListTitle[0] == 'T';
    assert NoneTrackedReply[0] == 'N';
  }

  lemma BoldHasNoNewline(name: string)
    requires '\n' !in name
    ensures '\n' !in "**" + name + "**"
  {
    var b := "**" + name + "**";
    forall k | 0 <= k < |b| ensures b[k] != '\n' {
      if 2 <= k < 2 + |name| {
        assert b[k] == name[k - 2];
      }
    }
  }
}
