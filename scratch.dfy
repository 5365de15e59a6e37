/** The Scratch side: projects as the public API lists them, and what the bot keeps of
    them (ScratchNotifyMe.py:17-30). The HTTP request itself is not modelled: a fetch is
    given as its status code and the decoded list of projects. */
module Scratch {

  /** One element of the JSON list returned by `/users/<name>/projects/`; only the two
      keys the bot reads are kept. */
  datatype Project = Project(id: int, title: string)

  /** The outcome of one `requests.get` on a user's project list. */
  datatype Response = Response(status: int, projects: seq<Project>)

  const StatusOk := 200

  /** `get_user_projects`: the decoded list on status 200, otherwise the empty list.
      A failed request and a user with no shared projects give the same result. */
  function GetUserProjects(r: Response): (ps: seq<Project>)
    ensures r.status == StatusOk ==> ps == r.projects
    ensures r.status != StatusOk ==> ps == []
  {
    if r.status == StatusOk then r.projects else []
  }

  /** The set of ids of a project list (`{project['id'] for project in ...}`). */
  function IdSet(ps: seq<Project>): set<int> {
    set p | p in ps :: p.id
  }

  /** The ids of the projects currently listed for a user. */
  function CurrentIds(r: Response): set<int> {
    IdSet(GetUserProjects(r))
  }

  /** A failed request cannot be told apart from a user who shares no projects: both
      give the empty list. */
  lemma FailureLooksLikeNoProjects(failed: Response, empty: Response)
    requires failed.status != StatusOk
    requires empty.status == StatusOk && empty.projects == []
    ensures GetUserProjects(failed) == GetUserProjects(empty) == []
    ensures CurrentIds(failed) == CurrentIds(empty) == {}
  {
  }

  /** A listing of n projects carries at most n distinct ids. */
  lemma {:induction false} IdSetBound(ps: seq<Project>)
    ensures |IdSet(ps)| <= |ps|
  {
    if ps != [] {
      IdSetBound(ps[1..]);
      assert IdSet(ps) == {ps[0].id} + IdSet(ps[1..]) by {
        forall x | x in IdSet(ps) ensures x in {ps[0].id} + IdSet(ps[1..]) {
          var p :| p in ps && p.id == x;
          if p != ps[0] {
            assert p in ps[1..];
          }
        }
      }
    }
  }

  /** `initialize_known_projects`: the ids of the fetched list, in list order; read as a
      set, exactly the ids currently listed. */
  function InitializeKnownProjects(r: Response): (ids: seq<int>)
    ensures (set x | x in ids) == CurrentIds(r)
    ensures |ids| == |GetUserProjects(r)|
    ensures forall k :: 0 <= k < |ids| ==> ids[k] == GetUserProjects(r)[k].id
  {
    var ps := GetUserProjects(r);
    var ids := seq(|ps|, k requires 0 <= k < |ps| => ps[k].id);
    assert (set x | x in ids) == CurrentIds(r) by {
      forall x | x in CurrentIds(r) ensures x in ids {
        var p :| p in ps && p.id == x;
        var k :| 0 <= k < |ps| && ps[k] == p;
        assert ids[k] == x;
      }
    }
    ids
  }

  /** `next(project for project in ps if project['id'] == id)`: the first listed project
      carrying the id. */
  function FirstWithId(ps: seq<Project>, id: int): (p: Project)
    requires id in IdSet(ps)
    ensures p in ps && p.id == id
    ensures exists k :: 0 <= k < |ps| && ps[k] == p && forall m :: 0 <= m < k ==> ps[m].id != id
  {
    if ps[0].id == id then ps[0]
    else
      assert id in IdSet(ps[1..]) by {
        var q :| q in ps && q.id == id;
        assert q in ps[1..];
      }
      var p := FirstWithId(ps[1..], id);
      ghost var k :| 0 <= k < |ps[1..]| && ps[1..][k] == p && forall m :: 0 <= m < k ==> ps[1..][m].id != id;
      assert ps[k + 1] == p && forall m :: 0 <= m < k + 1 ==> ps[m].id != id;
      p
  }
}
