# ScratchNotifyMe, modelled in Dafny

ScratchNotifyMe is a Discord bot. It watches Scratch users and posts a message when one of
them shares a new project. Subscriptions live in the MongoDB collection `tracked_users`. Each
document is one pair (identifier, username), where the identifier is a Discord channel id, or a
user id for a DM. The document also holds `is_dm` and the ids of the user's projects already
seen (`known_projects`). Three slash commands edit the collection: `/adduser`, `/deluser` and
`/viewusers`. Every 60 seconds `track_new_projects` runs a pass over every document. It fetches
the user's project list. It pulls the ids that are no longer listed. For each newly listed id
it calls `notify_new_project`, which sends a message unless the target channel cannot be
resolved, and then adds that id to the document.

The model has six modules:

- `Wrappers`: the `Option` type.
- `Decimal`: how `str` writes Discord ids and how `int` reads them back.
- `Scratch`: `get_user_projects`, `initialize_known_projects`, and the project lookup by id.
- `Messages`: the exact text of the notification and of every command reply.
- `Store`: the collection as a class `TrackedUsers` over a sequence of documents. It has the
  database operations the bot calls. `update_one` and `delete_one` act on the first matching
  document, as the database does.
- `Bot`: identifier selection, the three commands, `notify_new_project`, and the nested loops
  of `track_new_projects`. These are the loop over `distinct("identifier")`, the loop over
  each identifier's entries (`TrackDestination`, with its body `TrackEntry` and
  `ReconcileEntry`), and the loop over new ids (`AnnounceNewProjects`).

A pass is specified against the pure function `EntryStep(known, response)`. It gives the known
set after the pass and the ids notified. Lemmas about `EntryStep` state the bot's observable
behaviour over several passes. The pass records every `notify_new_project` call in a log of
`Notice`s: which subscription, which project, and the message sent, if any.

A failed fetch (status other than 200) is treated by the code exactly like a user with no
projects (ScratchNotifyMe.py:20-24). The pass then pulls every known id, and the next
successful fetch announces every listed project again: a pass cannot tell a failed fetch from
an empty listing. `FailureLooksLikeNoProjects`, `FailedFetchWipesKnown` and
`RefetchRenotifies` state this.

## Model

| member | source | states |
|---|---|---|
| Decimal.IntToString | ScratchNotifyMe.py:38-41 | `str(n)` is never empty and holds only digits and a minus sign |
| Decimal.IntRoundTrip | ScratchNotifyMe.py:97-100 | `ParseInt(IntToString(n)) == Some(n)`, i.e. `int(str(n)) == n`: the identifier written at registration reads back as the same Discord id at send time |
| Decimal.IntToStringInjective | ScratchNotifyMe.py:38-41 | distinct ids give distinct identifier strings |
| Scratch.FailureLooksLikeNoProjects | ScratchNotifyMe.py:17-24 | `get_user_projects` gives the same empty list, and so the same empty id set, for a failed request as for a user who shares no projects |
| Scratch.InitializeKnownProjects | ScratchNotifyMe.py:27-30 | read as a set, the seeded id list is exactly the set of ids currently listed (`CurrentIds`); it has one id per fetched project, in list order |
| Scratch.IdSetBound | ScratchNotifyMe.py:112 | the id set of a listing (`IdSet`) has no more elements than the listing has projects |
| Scratch.FirstWithId | ScratchNotifyMe.py:127 | the project returned carries the id, is in the list, and no earlier project carries it |
| Messages.RenderedLinkRoundTrip | ScratchNotifyMe.py:98 | the last line of a notification is `Link: https://scratch.mit.edu/projects/<id>/`, and parsing it gives back the project's id |
| Messages.LinkLineParses | ScratchNotifyMe.py:98 | the link line `Link: https://scratch.mit.edu/projects/<id>/` (`Link`) parses back to the id it was written from |
| Messages.RenderLines | ScratchNotifyMe.py:98 | when neither username nor title holds a newline, the notification (`Render`) is exactly three lines: `New project by **<username>**!`, `Title: <title>`, and the link line |
| Messages.RenderDistinguishesProjects | ScratchNotifyMe.py:102 | notifications about projects with different ids never have the same text |
| Messages.RepliesTellOutcome | ScratchNotifyMe.py:47-76 | the "already tracked" and "started tracking" replies of `/adduser` never coincide, nor do the "stopped tracking" and "not tracked" replies of `/deluser`, whatever the usernames |
| Messages.TrackedListLines | ScratchNotifyMe.py:92-93 | split on newlines, a non-empty listing (`TrackedListReply`) is the header followed by `**name**` for each tracked username in order, and it differs from the "none tracked" reply |
| Messages.ListingIsNotNoneTracked | ScratchNotifyMe.py:89-93 | no listing reply equals the "no users tracked" reply |
| Messages.SplitJoinRoundTrip | ScratchNotifyMe.py:93 | `"\n".join` of lines that hold no newline splits back into the same lines |
| Store.FindIndex | ScratchNotifyMe.py:45 | None iff no document matches the filter; otherwise the position of the first matching document |
| Store.RemoveMatching | ScratchNotifyMe.py:71 | with unique keys, deleting the found document removes exactly the documents matching the pair, keeps the keys unique and leaves nothing matching |
| Store.WithIdentifier | ScratchNotifyMe.py:87 | exactly the documents with that identifier, no more of them than in the collection, with unique keys when the collection has them |
| Store.Identifiers | ScratchNotifyMe.py:106 | every identifier present in the collection, each exactly once, and nothing else |
| Store.TrackedUsers.constructor | ScratchNotifyMe.py:10 | the model's empty starting state, which has unique keys; every command and the pass are specified for any collection with unique keys, not only for one built from empty |
| Store.TrackedUsers.FindOne | ScratchNotifyMe.py:45 | a document is returned iff the pair is tracked, and it is a stored document matching the pair |
| Store.TrackedUsers.InsertOne | ScratchNotifyMe.py:53-58 | appends the document without checking for an existing pair |
| Store.TrackedUsers.DeleteOne | ScratchNotifyMe.py:71 | removes the first matching document and reports a count of 1, or changes nothing and reports 0 when none matches |
| Store.TrackedUsers.Find | ScratchNotifyMe.py:107 | a document is returned iff it is stored and has the identifier; no more documents than stored; unique keys when the collection has them; in collection order (`WithIdentifier`) |
| Store.TrackedUsers.Distinct | ScratchNotifyMe.py:106 | an identifier is returned iff some stored document has it, and no identifier is returned twice |
| Store.TrackedUsers.UpdatePull | ScratchNotifyMe.py:119-122 | removes the given ids from the first matching document's known set; other documents and a missing pair are unchanged |
| Store.TrackedUsers.UpdateAddToSet | ScratchNotifyMe.py:131-134 | adds the id to the first matching document's known set; other documents and a missing pair are unchanged |
| Bot.Identify | ScratchNotifyMe.py:37-42 | `is_dm` holds iff the command came from a DM; the identifier reads back as the user's id in a DM and as the channel's id otherwise |
| Bot.IdentifySeparatesTargets | ScratchNotifyMe.py:37-42 | interactions aimed at different Discord ids get different identifiers |
| Bot.AddUser | ScratchNotifyMe.py:44-60 | if the pair is tracked, the collection is unchanged and the "already tracked" reply is sent; otherwise exactly one document is appended, its known set equal to the ids of the snapshot, and the "started tracking" reply is sent. Either way the pair is tracked afterwards and keys stay unique |
| Bot.DelUser | ScratchNotifyMe.py:65-76 | the result is true iff the pair was tracked; afterwards it is not; the documents kept are exactly the old ones not matching the pair, and the size drops by one iff a document was deleted; the reply matches the result |
| Bot.ViewUsers | ScratchNotifyMe.py:82-93 | the names are exactly the usernames tracked under this identifier, each once; the "none tracked" reply iff there are none, otherwise the listing of those names |
| Bot.NotifyNewProject | ScratchNotifyMe.py:95-102 | a message is sent iff the subscription is a DM or the channel resolves; it goes to the user in a DM and to the channel otherwise; its link line names the project's id |
| Bot.EntryStep | ScratchNotifyMe.py:112-125 | after one entry's pass the known set equals the fetched ids; the notified ids are the fetched ids not known before, so never an id already known |
| Bot.FailedFetchWipesKnown | ScratchNotifyMe.py:20-24 | a non-200 fetch empties the known set and notifies nothing |
| Bot.RefetchRenotifies | ScratchNotifyMe.py:117-128 | after a failed fetch, the next pass notifies every project it fetches |
| Bot.ReappearanceRenotifies | ScratchNotifyMe.py:117-128 | a known project that vanishes from the listing is not notified, and it is notified again when it reappears |
| Bot.ListedProjectNotifiedOnce | ScratchNotifyMe.py:125-128 | a project listed in two successive fetches is not notified by the second pass |
| Bot.NotifiedAtMostListed | ScratchNotifyMe.py:125-128 | one entry's pass notifies at most as many ids as the fetch lists projects |
| Bot.SnapshotIsQuiet | ScratchNotifyMe.py:50-58 | a subscription seeded by `/adduser` gets no notification when the next pass fetches the same listing |
| Bot.Reconciled | ScratchNotifyMe.py:112-134 | a pass keeps the document's key and `is_dm` and sets its known set to the fetched ids |
| Bot.NoticeFor | ScratchNotifyMe.py:126-128 | the notice for a new id names the subscription and a fetched project with that id; a message is sent iff it is a DM or the channel resolves |
| Bot.AnnounceNewProjects | ScratchNotifyMe.py:125-134 | the matching document gains exactly the new ids and no other document changes; one notice per new id, each the notice for that id |
| Bot.ReconcileEntry | ScratchNotifyMe.py:108-134 | the entry's document becomes its reconciled form and every other document is unchanged; the notices are about this entry, one per newly listed id, each the expected one |
| Bot.ProgressStep | ScratchNotifyMe.py:108-134 | reconciling one more subscription not yet handled extends the pass's invariant by that subscription's key |
| Bot.TrackEntry | ScratchNotifyMe.py:109-134 | one iteration of the inner loop extends the pass's invariant by the entry's key |
| Bot.TrackDestination | ScratchNotifyMe.py:107-134 | the inner loop extends the pass's invariant by the keys of every entry of one identifier |
| Bot.TrackNewProjects | ScratchNotifyMe.py:105-134 | after a pass every document is reconciled against its own fetch and keys stay unique. Every notice is about a tracked pair and is the expected notice. Each subscription gets exactly one notice per fetched id it did not know. An unresolved channel gets notices with nothing sent, and its known set still equals the fetched ids |

## Left out

- Discord: slash-command registration, `tree.sync`, `on_ready`, and the actual sends are foreign async calls. A command receives its interaction as a value. A send is recorded as a `Message` value. Whether `get_channel` resolves a channel is a predicate given to the pass.
- `bot.fetch_user` failing, and any exception leaving the task loop, are not modelled: a DM notice is always sent.
- HTTP and JSON: `requests.get` and `response.json()` are replaced by a `Response` value per username, holding the status and the list of projects. A 200 response whose JSON is not a project list is not modelled.
- The MongoDB connection and its query language: the collection is an in-memory sequence, and only the filters and updates the bot issues are modelled.
- `find` returns a cursor that is read lazily while the inner loop updates the collection. The model reads it in full when `find` is called.
- The 60-second scheduler and the interleaving of commands with a running pass, such as two `/adduser` calls racing between `find_one` and `insert_one`, are concurrency and are not modelled. `Valid` (unique pairs) holds because commands run one at a time here.
- `known_projects` is an array in the database but the bot only reads it through `set(...)`. It is modelled as a set, so its order and duplicates are not kept.
- `user_entry.get('is_dm', False)` and `.get('known_projects', [])`: documents written by `/adduser` always have both fields, so the defaults are not modelled.
- The database promises no order for `distinct("identifier")`. It is modelled as first appearance in the collection, and no contract depends on that order. The order in which a pass takes the new ids of one entry is left open (a nondeterministic choice), so notices are specified as a multiset of ids per subscription.
- Decimal.ParseInt: it reads only the form `str` writes, an optional minus sign and digits. Python's `int` also accepts surrounding whitespace, a plus sign and underscores, which an identifier never contains.
- The `print` of a failed fetch (ScratchNotifyMe.py:23) is console output and is not modelled.
