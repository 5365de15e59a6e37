/** The bot itself (ScratchNotifyMe.py:32-134): the three slash commands acting on the
    `tracked_users` collection, the notification sent for a new project, and the periodic
    reconciliation `track_new_projects`. Discord and the Scratch API are inputs: a command
    receives the interaction it answers, a fetch is a given `Response` per username, and
    whether `get_channel` finds a channel is a given predicate on the identifier. */
module Bot {

  import opened Wrappers
  import opened Decimal
  import opened Scratch
  import opened Messages
  import opened Store

  // ---------------------------------------------------------------------------------
  // Where a command was issued

  /** `OtherChannel` is every channel that is not a `discord.DMChannel`: server text
      channels, threads and group DMs alike. */
  datatype ChannelKind = DMChannel | OtherChannel(channelId: int)

  /** The parts of a Discord interaction the bot reads: who issued it and where. */
  datatype Interaction = Interaction(userId: int, channel: ChannelKind)

  datatype Identity = Identity(identifier: string, isDm: bool)

  /** The Discord id notifications for this interaction go to. */
  function TargetId(i: Interaction): int {
    if i.channel.DMChannel? then i.userId else i.channel.channelId
  }

  /** Identifier selection: the user's id in a DM, the channel's id elsewhere, written in
      decimal; `int(identifier)` at send time recovers that id. */
  function Identify(i: Interaction): (id: Identity)
    ensures id.isDm <==> i.channel.DMChannel?
    ensures ParseInt(id.identifier) == Some(TargetId(i))
  {
    IntRoundTrip(TargetId(i));
    Identity(IntToString(TargetId(i)), i.channel.DMChannel?)
  }

  /** Interactions aimed at different Discord ids never share an identifier, so their
      subscriptions never share a key. */
  lemma IdentifySeparatesTargets(a: Interaction, b: Interaction)
    requires TargetId(a) != TargetId(b)
    ensures Identify(a).identifier != Identify(b).identifier
  {
    var ia := Identify(a);
    var ib := Identify(b);
    assert ParseInt(ia.identifier) != ParseInt(ib.identifier);
  }

  // ---------------------------------------------------------------------------------
  // Slash commands

  /** `/adduser`: track `username` here unless it already is. `snapshot` is what fetching
      the user's projects returns at this moment; it is read only when the pair is new. */
  method AddUser(users: TrackedUsers, interaction: Interaction, username: string, snapshot: Response)
    returns (reply: string)
    requires users.Valid()
    modifies users
    ensures users.Valid()
    ensures Tracked(users.docs, Identify(interaction).identifier, username)
    ensures Tracked(old(users.docs), Identify(interaction).identifier, username) ==>
      users.docs == old(users.docs) && reply == AlreadyTrackedReply(username)
    ensures !Tracked(old(users.docs), Identify(interaction).identifier, username) ==>
      && users.docs == old(users.docs) + [Doc(Identify(interaction).identifier, username,
                                              Identify(interaction).isDm,
                                              set x | x in InitializeKnownProjects(snapshot))]
      && users.docs[|users.docs| - 1].known == CurrentIds(snapshot)
      && reply == StartedTrackingReply(username)
  {
    var id := Identify(interaction);
    var userExists := users.FindOne(id.identifier, username);
    if userExists.Some? {
      reply := AlreadyTrackedReply(username);
    } else {
      var knownProjects := InitializeKnownProjects(snapshot);
      ghost var before := users.docs;
      var d := Doc(id.identifier, username, id.isDm, set x | x in knownProjects);
      users.InsertOne(d);
      assert users.docs[|before|] == d;
      forall a, b | 0 <= a < b < |users.docs| ensures Key(users.docs[a]) != Key(users.docs[b]) {
        if b == |before| {
          assert users.docs[a] == before[a];
          assert !Matches(before[a], id.identifier, username);
        } else {
          assert users.docs[a] == before[a] && users.docs[b] == before[b];
        }
      }
      reply := StartedTrackingReply(username);
    }
  }

  /** `/deluser`: stop tracking `username` here. `deleted` is `deleted_count > 0`. */
  method DelUser(users: TrackedUsers, interaction: Interaction, username: string)
    returns (deleted: bool, reply: string)
    requires users.Valid()
    modifies users
    ensures users.Valid()
    ensures deleted <==> Tracked(old(users.docs), Identify(interaction).identifier, username)
    ensures !Tracked(users.docs, Identify(interaction).identifier, username)
    ensures forall d :: d in users.docs <==>
      d in old(users.docs) && !Matches(d, Identify(interaction).identifier, username)
    ensures |users.docs| == |old(users.docs)| - (if deleted then 1 else 0)
    ensures reply == if deleted then StoppedTrackingReply(username) else NotTrackedReply(username)
  {
    var id := Identify(interaction);
    ghost var before := users.docs;
    var deletedCount := users.DeleteOne(id.identifier, username);
    deleted := deletedCount > 0;
    match FindIndex(before, id.identifier, username) {
      case None =>
      case Some(i) =>
        RemoveMatching(before, id.identifier, username, i);
    }
    reply := if deleted then StoppedTrackingReply(username) else NotTrackedReply(username);
  }

  /** The usernames of a list of documents, in order. */
  function Usernames(entries: seq<Doc>): (names: seq<string>)
    ensures |names| == |entries|
    ensures forall k :: 0 <= k < |entries| ==> names[k] == entries[k].username
  {
    seq(|entries|, k requires 0 <= k < |entries| => entries[k].username)
  }

  /** `/viewusers`: the users tracked here, and the reply listing them. */
  method ViewUsers(users: TrackedUsers, interaction: Interaction) returns (names: seq<string>, reply: string)
    requires users.Valid()
    ensures forall u :: u in names <==> Tracked(users.docs, Identify(interaction).identifier, u)
    ensures forall a, b :: 0 <= a < b < |names| ==> names[a] != names[b]
    ensures names == [] <==> forall d :: d in users.docs ==> d.identifier != Identify(interaction).identifier
    ensures reply == NoneTrackedReply <==> names == []
    ensures names != [] ==> reply == TrackedListReply(names)
  {
    var id := Identify(interaction);
    var trackedUsers := users.Find(id.identifier);
    names := Usernames(trackedUsers);
    forall u ensures u in names <==> Tracked(users.docs, id.identifier, u) {
      if u in names {
        var k :| 0 <= k < |names| && names[k] == u;
        assert trackedUsers[k] in trackedUsers;
        var j :| 0 <= j < |users.docs| && users.docs[j] == trackedUsers[k];
        assert Matches(users.docs[j], id.identifier, u);
      }
      if Tracked(users.docs, id.identifier, u) {
        var j :| 0 <= j < |users.docs| && Matches(users.docs[j], id.identifier, u);
        assert users.docs[j] in trackedUsers;
        var k :| 0 <= k < |trackedUsers| && trackedUsers[k] == users.docs[j];
        assert names[k] == u;
      }
    }
    forall a, b | 0 <= a < b < |names| ensures names[a] != names[b] {
      assert trackedUsers[a] in trackedUsers && trackedUsers[b] in trackedUsers;
      assert Key(trackedUsers[a]) != Key(trackedUsers[b]);
    }
    if names == [] {
      reply := NoneTrackedReply;
    } else {
      reply := TrackedListReply(names);
      ListingIsNotNoneTracked(names);
      assert trackedUsers[0] in users.docs;
    }
  }

  // ---------------------------------------------------------------------------------
  // Notifications

  datatype Destination = User(userId: string) | Channel(channelId: string)

  /** A message handed to Discord. */
  datatype Message = Message(to: Destination, text: string)

  /** One call of `notify_new_project`: which subscription and project it was about, and
      the message it sent, if any. */
  datatype Notice = Notice(identifier: string, username: string, project: Project, sent: Option<Message>)

  /** `notify_new_project`: a DM always gets the message; a channel gets it only when
      `get_channel` resolves it (`resolvable`), and otherwise nothing is sent. */
  function NotifyNewProject(identifier: string, username: string, project: Project, isDm: bool,
                            resolvable: string -> bool): (sent: Option<Message>)
    ensures sent.Some? <==> isDm || resolvable(identifier)
    ensures sent.Some? ==> sent.value.to == (if isDm then User(identifier) else Channel(identifier))
    ensures sent.Some? ==> ParseLinkLine(LastLine(sent.value.text)) == Some(project.id)
  {
    RenderedLinkRoundTrip(username, project);
    if isDm then Some(Message(User(identifier), Render(username, project)))
    else if resolvable(identifier) then Some(Message(Channel(identifier), Render(username, project)))
    else None
  }

  // ---------------------------------------------------------------------------------
  // Reconciliation of one subscription

  /** What one pass does to one subscription: the known set afterwards and the ids it
      notifies about. */
  datatype Step = Step(known: set<int>, notified: set<int>)

  /** The per-entry set arithmetic of `track_new_projects`: drop `known - current`,
      notify and add `current - known`. */
  function EntryStep(known: set<int>, r: Response): (s: Step)
    ensures s.known == CurrentIds(r)
    ensures s.notified == CurrentIds(r) - known
    ensures s.notified !! known
  {
    var current := CurrentIds(r);
    var removed := known - current;
    var newIds := current - known;
    Step((known - removed) + newIds, newIds)
  }

  /** A failed fetch looks like a user with no projects: the known set is wiped and
      nothing is sent. */
  lemma FailedFetchWipesKnown(known: set<int>, r: Response)
    requires r.status != StatusOk
    ensures EntryStep(known, r) == Step({}, {})
  {
  }

  /** After a failed fetch, the next successful fetch notifies every listed project again,
      including those that were already known before the failure. */
  lemma RefetchRenotifies(known: set<int>, failed: Response, later: Response)
    requires failed.status != StatusOk
    ensures EntryStep(EntryStep(known, failed).known, later).notified == CurrentIds(later)
  {
  }

  /** A project that disappears from the listing and comes back is notified again. */
  lemma ReappearanceRenotifies(known: set<int>, r1: Response, r2: Response, id: int)
    requires id in known && id !in CurrentIds(r1) && id in CurrentIds(r2)
    ensures id !in EntryStep(known, r1).notified
    ensures id in EntryStep(EntryStep(known, r1).known, r2).notified
  {
  }

  /** A project that stays listed is notified at most once. */
  lemma ListedProjectNotifiedOnce(known: set<int>, r1: Response, r2: Response, id: int)
    requires id in CurrentIds(r1) && id in CurrentIds(r2)
    ensures id !in EntryStep(EntryStep(known, r1).known, r2).notified
  {
  }

  /** A subscription seeded by `/adduser` from a snapshot gets no notification when the
      next pass sees the same listing. */
  lemma SnapshotIsQuiet(r: Response)
    ensures EntryStep((set x | x in InitializeKnownProjects(r)), r) == Step(CurrentIds(r), {})
  {
  }

  /** A pass notifies at most as many projects as the fetch lists. */
  lemma NotifiedAtMostListed(known: set<int>, r: Response)
    ensures |EntryStep(known, r).notified| <= |GetUserProjects(r)|
  {
    IdSetBound(GetUserProjects(r));
    assert EntryStep(known, r).notified <= CurrentIds(r);
  }

  /** A document after its pass. */
  function Reconciled(d: Doc, fetch: string -> Response): (d': Doc)
    ensures Key(d') == Key(d) && d'.isDm == d.isDm
    ensures d'.known == CurrentIds(fetch(d.username))
  {
    d.(known := EntryStep(d.known, fetch(d.username)).known)
  }

  function NotifiedIds(d: Doc, fetch: string -> Response): set<int> {
    EntryStep(d.known, fetch(d.username)).notified
  }

  predicate About(n: Notice, d: Doc) {
    n.identifier == d.identifier && n.username == d.username
  }

  /** What one call of `notify_new_project` for a new id records: the first fetched
      project carrying the id, and the message sent for it. */
  function NoticeFor(identifier: string, username: string, isDm: bool, current: seq<Project>,
                     resolvable: string -> bool, id: int): (n: Notice)
    requires id in IdSet(current)
    ensures n.identifier == identifier && n.username == username
    ensures n.project in current && n.project.id == id
    ensures n.sent.Some? <==> isDm || resolvable(identifier)
  {
    var project := FirstWithId(current, id);
    Notice(identifier, username, project, NotifyNewProject(identifier, username, project, isDm, resolvable))
  }

  /** `n` is the notice a pass produces for `d` about one of the ids it fetched. */
  predicate Expected(d: Doc, fetch: string -> Response, resolvable: string -> bool, n: Notice) {
    var current := GetUserProjects(fetch(d.username));
    && n.project.id in IdSet(current)
    && n == NoticeFor(d.identifier, d.username, d.isDm, current, resolvable, n.project.id)
  }

  function ProjectIds(notes: seq<Notice>): (ids: seq<int>)
    ensures |ids| == |notes|
    ensures forall k :: 0 <= k < |notes| ==> ids[k] == notes[k].project.id
  {
    seq(|notes|, k requires 0 <= k < |notes| => notes[k].project.id)
  }

  lemma AddOneNewId(base: set<int>, newIds: set<int>, remaining: set<int>, id: int)
    requires id in remaining && remaining <= newIds
    ensures base + (newIds - remaining) + {id} == base + (newIds - (remaining - {id}))
    ensures newIds - (remaining - {id}) == (newIds - remaining) + {id}
    ensures id !in newIds - remaining
  {
  }

  lemma KnownSettles(known: set<int>, current: set<int>)
    ensures (known - (known - current)) + (current - known) == current
  {
  }

  /** With unique keys, the filter on a key matches exactly the document the database
      finds for it. */
  lemma MatchIsFound(docs: seq<Doc>, identifier: string, username: string, j: nat)
    requires UniqueKeys(docs) && j < |docs|
    ensures Matches(docs[j], identifier, username) <==> FindIndex(docs, identifier, username) == Some(j)
  {
    if Matches(docs[j], identifier, username) {
      FindIndexOfKey(docs, j);
    }
  }

  /** One `$addToSet` of the loop over new ids, seen on the whole collection: the
      matching document gains the id, the others stay as they were. */
  lemma AddToSetStep(before: seq<Doc>, docs0: seq<Doc>, docs1: seq<Doc>, identifier: string, username: string,
                     newProjects: set<int>, remaining: set<int>, id: int)
    requires UniqueKeys(before) && |docs0| == |before|
    requires id in remaining && remaining <= newProjects
    requires forall j :: 0 <= j < |before| ==>
      docs0[j] == if Matches(before[j], identifier, username)
                  then before[j].(known := before[j].known + (newProjects - remaining))
                  else before[j]
    requires docs1 == match FindIndex(docs0, identifier, username)
      case None => docs0
      case Some(i) => docs0[i := docs0[i].(known := docs0[i].known + {id})]
    ensures UniqueKeys(docs1) && |docs1| == |before|
    ensures forall j :: 0 <= j < |before| ==>
      docs1[j] == if Matches(before[j], identifier, username)
                  then before[j].(known := before[j].known + (newProjects - (remaining - {id})))
                  else before[j]
  {
    assert UniqueKeys(docs0) by {
      forall a, b | 0 <= a < b < |docs0| ensures Key(docs0[a]) != Key(docs0[b]) {
        assert Key(docs0[a]) == Key(before[a]) && Key(docs0[b]) == Key(before[b]);
      }
    }
    forall j | 0 <= j < |before| ensures
      docs1[j] == if Matches(before[j], identifier, username)
                  then before[j].(known := before[j].known + (newProjects - (remaining - {id})))
                  else before[j]
    {
      MatchIsFound(docs0, identifier, username, j);
      if Matches(before[j], identifier, username) {
        AddOneNewId(before[j].known, newProjects, remaining, id);
      }
    }
    assert UniqueKeys(docs1) by {
      forall a, b | 0 <= a < b < |docs1| ensures Key(docs1[a]) != Key(docs1[b]) {
        assert Key(docs1[a]) == Key(before[a]) && Key(docs1[b]) == Key(before[b]);
      }
    }
  }

  /** One more notice for a remaining new id: the notified ids grow by that id. */
  lemma NoticesStep(notes: seq<Notice>, n: Notice, newProjects: set<int>, remaining: set<int>)
    requires multiset(ProjectIds(notes)) == multiset(newProjects - remaining)
    requires n.project.id in remaining && remaining <= newProjects
    ensures multiset(ProjectIds(notes + [n])) == multiset(newProjects - (remaining - {n.project.id}))
  {
    var id := n.project.id;
    assert ProjectIds(notes + [n]) == ProjectIds(notes) + [id];
    AddOneNewId({}, newProjects, remaining, id);
  }

  /** The loop `for project_id in new_projects` (ScratchNotifyMe.py:126-134): notify, then
      `$addToSet` the id on the subscription's document. The ids are taken in an order the
      model leaves open. */
  method AnnounceNewProjects(users: TrackedUsers, identifier: string, username: string, isDm: bool,
                             current: seq<Project>, newProjects: set<int>, resolvable: string -> bool)
    returns (notes: seq<Notice>)
    requires users.Valid()
    requires newProjects <= IdSet(current)
    modifies users
    ensures users.Valid()
    ensures |users.docs| == |old(users.docs)|
    ensures forall j :: 0 <= j < |users.docs| ==>
      users.docs[j] == if Matches(old(users.docs)[j], identifier, username)
                       then old(users.docs)[j].(known := old(users.docs)[j].known + newProjects)
                       else old(users.docs)[j]
    ensures forall n :: n in notes ==>
      n.project.id in newProjects && n == NoticeFor(identifier, username, isDm, current, resolvable, n.project.id)
    ensures multiset(ProjectIds(notes)) == multiset(newProjects)
  {
    ghost var before := users.docs;
    var remaining := newProjects;
    notes := [];
    while remaining != {}
      invariant remaining <= newProjects
      invariant |users.docs| == |before|
      invariant forall j :: 0 <= j < |before| ==>
        users.docs[j] == if Matches(before[j], identifier, username)
                         then before[j].(known := before[j].known + (newProjects - remaining))
                         else before[j]
      invariant forall n :: n in notes ==>
        n.project.id in newProjects && n == NoticeFor(identifier, username, isDm, current, resolvable, n.project.id)
      invariant multiset(ProjectIds(notes)) == multiset(newProjects - remaining)
      decreases remaining
    {
      var projectId :| projectId in remaining;
      var project := FirstWithId(current, projectId);
      var sent := NotifyNewProject(identifier, username, project, isDm, resolvable);
      NoticesStep(notes, Notice(identifier, username, project, sent), newProjects, remaining);
      notes := notes + [Notice(identifier, username, project, sent)];
      ghost var docs0 := users.docs;
      users.UpdateAddToSet(identifier, username, projectId);
      AddToSetStep(before, docs0, users.docs, identifier, username, newProjects, remaining, projectId);
      remaining := remaining - {projectId};
    }
    assert newProjects - remaining == newProjects;
  }

  /** One iteration of the loop over a destination's entries (ScratchNotifyMe.py:108-134),
      for the entry `entry` read from the collection: `$pull` the ids no longer listed,
      then announce and record the new ones. */
  method ReconcileEntry(users: TrackedUsers, entry: Doc, fetch: string -> Response, resolvable: string -> bool)
    returns (notes: seq<Notice>)
    requires users.Valid() && entry in users.docs
    modifies users
    ensures users.Valid()
    ensures |users.docs| == |old(users.docs)|
    ensures forall j :: 0 <= j < |users.docs| ==>
      users.docs[j] == if Key(old(users.docs)[j]) == Key(entry) then Reconciled(entry, fetch) else old(users.docs)[j]
    ensures forall n :: n in notes ==> About(n, entry) && Expected(entry, fetch, resolvable, n)
    ensures multiset(ProjectIds(notes)) == multiset(NotifiedIds(entry, fetch))
  {
    var identifier, username, isDm := entry.identifier, entry.username, entry.isDm;
    var currentProjects := GetUserProjects(fetch(username));
    var currentProjectIds := IdSet(currentProjects);
    var knownProjects := entry.known;
    ghost var j0 :| 0 <= j0 < |users.docs| && users.docs[j0] == entry;
    ghost var before := users.docs;
    FindIndexOfKey(before, j0);

    var removedProjects := knownProjects - currentProjectIds;
    if removedProjects != {} {
      users.UpdatePull(identifier, username, removedProjects);
      ReplaceKeepsUniqueKeys(before, j0, users.docs[j0]);
    } else {
      assert entry.(known := knownProjects - removedProjects) == entry;
      assert before[j0 := entry] == before;
    }
    ghost var pulled := users.docs;
    assert pulled == before[j0 := entry.(known := knownProjects - removedProjects)];

    var newProjects := currentProjectIds - knownProjects;
    notes := AnnounceNewProjects(users, identifier, username, isDm, currentProjects, newProjects, resolvable);
    KnownSettles(knownProjects, currentProjectIds);
    forall j | 0 <= j < |users.docs| ensures
      users.docs[j] == if Key(before[j]) == Key(entry) then Reconciled(entry, fetch) else before[j]
    {
      if j != j0 {
        assert Key(before[j]) != Key(before[j0]);
        assert pulled[j] == before[j];
      }
    }
  }

  // ---------------------------------------------------------------------------------
  // The periodic pass over the whole collection

  /** The ids of the notices in `log` about the subscription `d`, in log order. */
  function IdsAbout(log: seq<Notice>, d: Doc): seq<int> {
    if log == [] then []
    else IdsAbout(log[..|log| - 1], d) + (if About(log[|log| - 1], d) then [log[|log| - 1].project.id] else [])
  }

  lemma {:induction false} IdsAboutAppend(a: seq<Notice>, b: seq<Notice>, d: Doc)
    ensures IdsAbout(a + b, d) == IdsAbout(a, d) + IdsAbout(b, d)
  {
    if b != [] {
      var b' := b[..|b| - 1];
      assert (a + b)[..|a + b| - 1] == a + b';
      IdsAboutAppend(a, b', d);
    } else {
      assert a + b == a;
    }
  }

  /** Notices all about one subscription `e`: seen from `d`, they are all of its notices
      when `d` has `e`'s key, and none otherwise. */
  lemma {:induction false} IdsAboutOne(notes: seq<Notice>, e: Doc, d: Doc)
    requires forall n :: n in notes ==> About(n, e)
    ensures IdsAbout(notes, d) == if Key(d) == Key(e) then ProjectIds(notes) else []
  {
    if notes != [] {
      var init := notes[..|notes| - 1];
      assert forall n :: n in init ==> n in notes;
      IdsAboutOne(init, e, d);
      assert notes[|notes| - 1] in notes;
      if Key(d) == Key(e) {
        assert ProjectIds(notes) == ProjectIds(init) + [notes[|notes| - 1].project.id];
      }
    }
  }

  /** The keys of the documents whose identifier is among `ids`. */
  function KeysWithIdentifierIn(docs: seq<Doc>, ids: seq<string>): set<(string, string)> {
    set d | d in docs && d.identifier in ids :: Key(d)
  }

  /** The documents whose keys are in `done` are reconciled; the others are untouched. */
  ghost predicate DocsDone(docs: seq<Doc>, start: seq<Doc>, done: set<(string, string)>, fetch: string -> Response) {
    && |docs| == |start|
    && forall j :: 0 <= j < |start| ==>
         docs[j] == if Key(start[j]) in done then Reconciled(start[j], fetch) else start[j]
  }

  /** Every notice in the log is about a handled subscription. */
  ghost predicate LogKeysDone(log: seq<Notice>, done: set<(string, string)>) {
    forall n :: n in log ==> (n.identifier, n.username) in done
  }

  /** Every notice about a subscription is one its pass produces. */
  ghost predicate LogExpected(log: seq<Notice>, start: seq<Doc>, fetch: string -> Response, resolvable: string -> bool) {
    forall j, n :: 0 <= j < |start| && n in log && About(n, start[j]) ==> Expected(start[j], fetch, resolvable, n)
  }

  /** A handled subscription has one notice per new id, an unhandled one none. */
  ghost predicate LogCounts(log: seq<Notice>, start: seq<Doc>, done: set<(string, string)>, fetch: string -> Response) {
    forall j :: 0 <= j < |start| ==>
      multiset(IdsAbout(log, start[j])) ==
        if Key(start[j]) in done then multiset(NotifiedIds(start[j], fetch)) else multiset{}
  }

  /** The state of a pass that has handled the subscriptions whose keys are in `done`. */
  ghost predicate Progress(docs: seq<Doc>, start: seq<Doc>, log: seq<Notice>, done: set<(string, string)>,
                           fetch: string -> Response, resolvable: string -> bool)
  {
    && done <= Keys(start)
    && DocsDone(docs, start, done, fetch)
    && LogKeysDone(log, done)
    && LogExpected(log, start, fetch, resolvable)
    && LogCounts(log, start, done, fetch)
  }

  lemma ProgressKeepsUniqueKeys(docs: seq<Doc>, start: seq<Doc>, done: set<(string, string)>, fetch: string -> Response)
    requires UniqueKeys(start) && DocsDone(docs, start, done, fetch)
    ensures UniqueKeys(docs)
  {
    forall a, b | 0 <= a < b < |docs| ensures Key(docs[a]) != Key(docs[b]) {
      assert Key(docs[a]) == Key(start[a]) && Key(docs[b]) == Key(start[b]);
    }
  }

  lemma DocsDoneStep(docs: seq<Doc>, docs': seq<Doc>, start: seq<Doc>, done: set<(string, string)>,
                     entry: Doc, fetch: string -> Response)
    requires UniqueKeys(start) && DocsDone(docs, start, done, fetch)
    requires entry in start
    requires |docs'| == |docs|
    requires forall j :: 0 <= j < |docs'| ==>
      docs'[j] == if Key(docs[j]) == Key(entry) then Reconciled(entry, fetch) else docs[j]
    ensures DocsDone(docs', start, done + {Key(entry)}, fetch)
  {
    forall j | 0 <= j < |start| ensures
      docs'[j] == if Key(start[j]) in done + {Key(entry)} then Reconciled(start[j], fetch) else start[j]
    {
      assert Key(docs[j]) == Key(start[j]);
      if Key(start[j]) == Key(entry) {
        assert start[j] == entry;
      }
    }
  }

  lemma LogExpectedStep(log: seq<Notice>, notes: seq<Notice>, start: seq<Doc>, entry: Doc,
                        fetch: string -> Response, resolvable: string -> bool)
    requires UniqueKeys(start) && LogExpected(log, start, fetch, resolvable)
    requires entry in start
    requires forall n :: n in notes ==> About(n, entry) && Expected(entry, fetch, resolvable, n)
    ensures LogExpected(log + notes, start, fetch, resolvable)
  {
    forall j, n | 0 <= j < |start| && n in log + notes && About(n, start[j])
      ensures Expected(start[j], fetch, resolvable, n)
    {
      if n !in log {
        assert n in notes && About(n, entry);
        assert start[j] == entry;
      }
    }
  }

  lemma LogCountsStep(log: seq<Notice>, notes: seq<Notice>, start: seq<Doc>, done: set<(string, string)>,
                      entry: Doc, fetch: string -> Response)
    requires UniqueKeys(start) && LogCounts(log, start, done, fetch)
    requires entry in start && Key(entry) !in done
    requires forall n :: n in notes ==> About(n, entry)
    requires multiset(ProjectIds(notes)) == multiset(NotifiedIds(entry, fetch))
    ensures LogCounts(log + notes, start, done + {Key(entry)}, fetch)
  {
    forall j | 0 <= j < |start| ensures
      multiset(IdsAbout(log + notes, start[j])) ==
        if Key(start[j]) in done + {Key(entry)} then multiset(NotifiedIds(start[j], fetch)) else multiset{}
    {
      IdsAboutAppend(log, notes, start[j]);
      IdsAboutOne(notes, entry, start[j]);
      if Key(start[j]) == Key(entry) {
        assert start[j] == entry;
      }
    }
  }

  /** Handling one more subscription extends the progress by its key. */
  lemma ProgressStep(docs: seq<Doc>, docs': seq<Doc>, start: seq<Doc>, log: seq<Notice>, notes: seq<Notice>,
                     done: set<(string, string)>, entry: Doc,
                     fetch: string -> Response, resolvable: string -> bool)
    requires UniqueKeys(start) && Progress(docs, start, log, done, fetch, resolvable)
    requires entry in start && Key(entry) !in done
    requires |docs'| == |docs|
    requires forall j :: 0 <= j < |docs'| ==>
      docs'[j] == if Key(docs[j]) == Key(entry) then Reconciled(entry, fetch) else docs[j]
    requires forall n :: n in notes ==> About(n, entry) && Expected(entry, fetch, resolvable, n)
    requires multiset(ProjectIds(notes)) == multiset(NotifiedIds(entry, fetch))
    ensures Progress(docs', start, log + notes, done + {Key(entry)}, fetch, resolvable)
  {
    DocsDoneStep(docs, docs', start, done, entry, fetch);
    LogExpectedStep(log, notes, start, entry, fetch, resolvable);
    LogCountsStep(log, notes, start, done, entry, fetch);
    assert LogKeysDone(log + notes, done + {Key(entry)}) by {
      forall n | n in log + notes ensures (n.identifier, n.username) in done + {Key(entry)} {
        if n !in log {
          assert n in notes;
        }
      }
    }
  }

  /** `track_new_projects`: one pass over every subscription, destination by destination.
      `fetch` gives what `get_user_projects` receives for each username during this pass;
      `resolvable` says which channel ids `get_channel` resolves. The result is the log of
      `notify_new_project` calls. */
  method TrackNewProjects(users: TrackedUsers, fetch: string -> Response, resolvable: string -> bool)
    returns (log: seq<Notice>)
    requires users.Valid()
    modifies users
    ensures users.Valid()
    ensures |users.docs| == |old(users.docs)|
    ensures forall j :: 0 <= j < |users.docs| ==> users.docs[j] == Reconciled(old(users.docs)[j], fetch)
    ensures forall n :: n in log ==> (n.identifier, n.username) in Keys(old(users.docs))
    ensures forall j, n :: 0 <= j < |old(users.docs)| && n in log && About(n, old(users.docs)[j]) ==>
      Expected(old(users.docs)[j], fetch, resolvable, n)
    ensures forall j :: 0 <= j < |old(users.docs)| ==>
      multiset(IdsAbout(log, old(users.docs)[j])) == multiset(NotifiedIds(old(users.docs)[j], fetch))
  {
    ghost var start := users.docs;
    ghost var done: set<(string, string)> := {};
    log := [];
    var identifiers := users.Distinct();
    var k := 0;
    while k < |identifiers|
      invariant 0 <= k <= |identifiers|
      invariant Progress(users.docs, start, log, done, fetch, resolvable)
      invariant done == KeysWithIdentifierIn(start, identifiers[..k])
    {
      var identifier := identifiers[k];
      ProgressKeepsUniqueKeys(users.docs, start, done, fetch);
      var entries := users.Find(identifier);
      EntriesAreUntouched(users.docs, start, done, fetch, identifiers, k, entries);
      EntriesNotYetDone(start, identifiers, k, entries);
      var notes := TrackDestination(users, entries, fetch, resolvable, start, log, done);
      log := log + notes;
      done := done + EntryKeys(entries, |entries|);
      DestinationDone(start, identifiers, k, entries);
      k := k + 1;
    }
    AllKeysDone(start, identifiers);
    ProgressKeepsUniqueKeys(users.docs, start, done, fetch);
  }

  /** The inner loop of `track_new_projects`: every entry `find` returned for one
      destination, in order. */
  method TrackDestination(users: TrackedUsers, entries: seq<Doc>, fetch: string -> Response,
                          resolvable: string -> bool, ghost start: seq<Doc>, ghost log0: seq<Notice>,
                          ghost done: set<(string, string)>)
    returns (notes: seq<Notice>)
    requires UniqueKeys(start) && Progress(users.docs, start, log0, done, fetch, resolvable)
    requires UniqueKeys(entries)
    requires forall m :: 0 <= m < |entries| ==> entries[m] in start && Key(entries[m]) !in done
    modifies users
    ensures Progress(users.docs, start, log0 + notes, done + EntryKeys(entries, |entries|), fetch, resolvable)
  {
    notes := [];
    var e := 0;
    assert done + EntryKeys(entries, 0) == done;
    assert log0 + notes == log0;
    while e < |entries|
      invariant 0 <= e <= |entries|
      invariant Progress(users.docs, start, log0 + notes, done + EntryKeys(entries, e), fetch, resolvable)
    {
      EntryNotYetDone(done, entries, e);
      var more := TrackEntry(users, entries[e], fetch, resolvable, start, log0 + notes, done + EntryKeys(entries, e));
      AppendAssociates(log0, notes, more);
      notes := notes + more;
      e := e + 1;
    }
  }

  /** The body of the inner loop: one subscription reconciled, its key added to the
      handled set and its notices to the log. */
  method TrackEntry(users: TrackedUsers, userEntry: Doc, fetch: string -> Response, resolvable: string -> bool,
                    ghost start: seq<Doc>, ghost log: seq<Notice>, ghost handled: set<(string, string)>)
    returns (more: seq<Notice>)
    requires UniqueKeys(start) && Progress(users.docs, start, log, handled, fetch, resolvable)
    requires userEntry in start && Key(userEntry) !in handled
    modifies users
    ensures Progress(users.docs, start, log + more, handled + {Key(userEntry)}, fetch, resolvable)
  {
    ghost var j :| 0 <= j < |start| && start[j] == userEntry;
    ProgressKeepsUniqueKeys(users.docs, start, handled, fetch);
    assert users.docs[j] == userEntry;
    ghost var docs0 := users.docs;
    more := ReconcileEntry(users, userEntry, fetch, resolvable);
    ProgressStep(docs0, users.docs, start, log, more, handled, userEntry, fetch, resolvable);
  }

  /** What `find({"identifier": identifier})` returns in the middle of a pass, for an
      identifier not yet handled: untouched documents, exactly those of that identifier,
      with unique keys. */
  lemma EntriesAreUntouched(docs: seq<Doc>, start: seq<Doc>, done: set<(string, string)>, fetch: string -> Response,
                            identifiers: seq<string>, k: nat, entries: seq<Doc>)
    requires UniqueKeys(start) && DocsDone(docs, start, done, fetch)
    requires identifiers == Identifiers(start) && k < |identifiers|
    requires done == KeysWithIdentifierIn(start, identifiers[..k])
    requires entries == WithIdentifier(docs, identifiers[k])
    ensures identifiers[k] !in identifiers[..k]
    ensures forall m :: 0 <= m < |entries| ==> entries[m] in start && entries[m].identifier == identifiers[k]
    ensures forall d :: d in start && d.identifier == identifiers[k] ==> d in entries
    ensures UniqueKeys(entries)
  {
    var id := identifiers[k];
    assert id !in identifiers[..k] by {
      forall m | 0 <= m < k ensures identifiers[..k][m] != id {
        assert identifiers[..k][m] == identifiers[m];
      }
    }
    forall j | 0 <= j < |start| && start[j].identifier == id ensures docs[j] == start[j] {
    }
    forall m | 0 <= m < |entries| ensures entries[m] in start && entries[m].identifier == id {
      assert entries[m] in entries;
      var j :| 0 <= j < |docs| && docs[j] == entries[m];
      assert Key(docs[j]) == Key(start[j]);
    }
    forall d | d in start && d.identifier == id ensures d in entries {
      var j :| 0 <= j < |start| && start[j] == d;
      assert docs[j] == d;
      assert d in docs;
    }
    ProgressKeepsUniqueKeys(docs, start, done, fetch);
  }

  lemma AppendAssociates<T>(a: seq<T>, b: seq<T>, c: seq<T>)
    ensures a + b + c == a + (b + c)
  {
  }

  /** The keys of the first `e` entries. */
  function EntryKeys(entries: seq<Doc>, e: nat): set<(string, string)>
    requires e <= |entries|
  {
    set m | 0 <= m < e :: Key(entries[m])
  }

  /** The entries of an identifier not handled yet have keys outside the handled set. */
  lemma EntriesNotYetDone(start: seq<Doc>, identifiers: seq<string>, k: nat, entries: seq<Doc>)
    requires k < |identifiers|
    requires identifiers[k] !in identifiers[..k]
    requires forall m :: 0 <= m < |entries| ==> entries[m] in start && entries[m].identifier == identifiers[k]
    ensures forall m :: 0 <= m < |entries| ==> Key(entries[m]) !in KeysWithIdentifierIn(start, identifiers[..k])
  {
  }

  /** One more entry handled: its key joins the handled set, which did not hold it yet. */
  lemma EntryNotYetDone(done: set<(string, string)>, entries: seq<Doc>, e: nat)
    requires e < |entries| && UniqueKeys(entries)
    requires forall m :: 0 <= m < |entries| ==> Key(entries[m]) !in done
    ensures Key(entries[e]) !in done + EntryKeys(entries, e)
    ensures done + EntryKeys(entries, e + 1) == (done + EntryKeys(entries, e)) + {Key(entries[e])}
  {
  }

  /** After all entries of `identifiers[k]`, the handled keys are those of the first k + 1
      identifiers. */
  lemma DestinationDone(start: seq<Doc>, identifiers: seq<string>, k: nat, entries: seq<Doc>)
    requires k < |identifiers|
    requires forall m :: 0 <= m < |entries| ==> entries[m] in start && entries[m].identifier == identifiers[k]
    requires forall d :: d in start && d.identifier == identifiers[k] ==> d in entries
    ensures KeysWithIdentifierIn(start, identifiers[..k]) + EntryKeys(entries, |entries|)
      == KeysWithIdentifierIn(start, identifiers[..k + 1])
  {
    assert identifiers[..k + 1] == identifiers[..k] + [identifiers[k]];
    forall x | x in KeysWithIdentifierIn(start, identifiers[..k + 1])
      ensures x in KeysWithIdentifierIn(start, identifiers[..k]) + EntryKeys(entries, |entries|)
    {
      var d :| d in start && d.identifier in identifiers[..k + 1] && Key(d) == x;
      if d.identifier !in identifiers[..k] {
        assert d in entries;
        var m :| 0 <= m < |entries| && entries[m] == d;
      }
    }
  }

  lemma AllKeysDone(start: seq<Doc>, identifiers: seq<string>)
    requires identifiers == Identifiers(start)
    ensures KeysWithIdentifierIn(start, identifiers[..|identifiers|]) == Keys(start)
  {
    assert identifiers[..|identifiers|] == identifiers;
  }
}
