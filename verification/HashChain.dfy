/** The parent-linked Change-Id chain (scripts/hashchain.py, 80-149, 155-304, 330-346, 442-466 and 497-564). */
module HashChain {
  import opened Wrappers

  /** A commit is its own content, parents included, as Git's object names make it. */
  datatype Commit = Commit(bot: bool, signed: bool, author: string, message: string, tree: string, parents: seq<Commit>)

  /** The hashes and Git's text and merge tools, as arbitrary functions. */
  datatype Env = Env(seed: Commit -> string, nextId: (string, string) -> string, mergeLink: Commit -> string,
                     cleanMerge: (string, seq<Commit>) -> bool, changeId: string -> Option<string>,
                     hasRechained: string -> bool, stamped: (string, string) -> string, styleOk: string -> bool)

  /** Stamping cleans a message of generated lines and adds one trailer, which reads back. */
  ghost predicate Stamps(env: Env) {
    forall m: string, v: string :: StampsOne(env, m, v)
  }

  ghost predicate StampsOne(env: Env, m: string, v: string) {
    env.changeId(env.stamped(m, v)) == Some(v) && !env.hasRechained(env.stamped(m, v))
  }

  // ----- ancestry -----

  /** `x` is `c` or an ancestor of it. */
  predicate Reach(x: Commit, c: Commit)
    decreases c
  {
    x == c || exists i | 0 <= i < |c.parents| :: Reach(x, c.parents[i])
  }

  ghost function Height(c: Commit): nat
    decreases c
  {
    1 + MaxHeight(c, |c.parents|)
  }

  ghost function MaxHeight(c: Commit, n: nat): nat
    requires n <= |c.parents|
    decreases c, 0, n
  {
    if n == 0 then 0
    else
      var h, rest := Height(c.parents[n - 1]), MaxHeight(c, n - 1);
      if h > rest then h else rest
  }

  lemma {:induction false} ParentIsLower(c: Commit, n: nat, i: nat)
    requires i < n <= |c.parents|
    ensures Height(c.parents[i]) <= MaxHeight(c, n)
    decreases n
  {
    if i < n - 1 {
      ParentIsLower(c, n - 1, i);
    }
  }

  lemma {:induction false} ReachIsLower(x: Commit, c: Commit)
    requires Reach(x, c)
    ensures x == c || Height(x) < Height(c)
    decreases c
  {
    if x != c {
      var i :| 0 <= i < |c.parents| && Reach(x, c.parents[i]);
      ReachIsLower(x, c.parents[i]);
      ParentIsLower(c, |c.parents|, i);
    }
  }

  lemma {:induction false} ReachTransitive(x: Commit, y: Commit, c: Commit)
    requires Reach(x, y) && Reach(y, c)
    ensures Reach(x, c)
    decreases c
  {
    if y != c {
      var i :| 0 <= i < |c.parents| && Reach(y, c.parents[i]);
      ReachTransitive(x, y, c.parents[i]);
    }
  }

  // ----- verify -----

  /** The link the chain gives a commit: what `verify` computes going forward. */
  function LinkOf(env: Env, anchor: Commit, c: Commit): string
    decreases c
  {
    if c == anchor then env.seed(anchor)
    else if |c.parents| == 1 then env.nextId(LinkOf(env, anchor, c.parents[0]), c.tree)
    else env.mergeLink(c)
  }

  /** What `verify` asks of one commit of the range. */
  predicate LocallyValid(env: Env, anchor: Commit, c: Commit) {
    if |c.parents| == 2 then env.cleanMerge(c.tree, c.parents)
    else
      && |c.parents| == 1
      && (c.bot || env.changeId(c.message) == Some(env.nextId(LinkOf(env, anchor, c.parents[0]), c.tree)))
  }

  /** The commits the range `anchor..tip` holds. */
  ghost predicate InRange(anchor: Commit, tip: Commit, c: Commit) {
    Reach(c, tip) && !Reach(c, anchor)
  }

  ghost predicate ParentsLinked(anchor: Commit, c: Commit) {
    c.parents != [] && forall i :: 0 <= i < |c.parents| ==> c.parents[i] == anchor || !Reach(c.parents[i], anchor)
  }

  ghost predicate Acceptable(env: Env, anchor: Commit, c: Commit) {
    LocallyValid(env, anchor, c) && ParentsLinked(anchor, c)
  }

  /** The whole history from the anchor to `tip` is accepted. */
  ghost predicate Accepted(env: Env, anchor: Commit, tip: Commit) {
    forall c :: InRange(anchor, tip, c) ==> Acceptable(env, anchor, c)
  }

  /** `rev-list --reverse --topo-order anchor..tip`: the range, each commit once, parents first, the
      tip last. */
  ghost predicate IsRange(anchor: Commit, tip: Commit, commits: seq<Commit>) {
    && (forall c :: c in commits <==> InRange(anchor, tip, c))
    && Distinct(commits)
    && (forall j :: 0 <= j < |commits| ==> ParentsFirst(commits, j))
    && (commits != [] ==> commits[|commits| - 1] == tip)
  }

  ghost predicate Distinct(commits: seq<Commit>) {
    forall i, j :: 0 <= i < j < |commits| ==> commits[i] != commits[j]
  }

  ghost predicate ParentsFirst(commits: seq<Commit>, j: nat)
    requires j < |commits|
  {
    forall i :: 0 <= i < |commits[j].parents| && commits[j].parents[i] in commits ==>
                  commits[j].parents[i] in commits[..j]
  }

  /** `history`: the range, nothing for a tip behind the anchor, and an error for unrelated histories. */
  ghost predicate IsHistory(anchor: Commit, tip: Commit, history: Option<seq<Commit>>) {
    if Reach(anchor, tip) then history.Some? && IsRange(anchor, tip, history.value)
    else if Reach(tip, anchor) then history == Some([])
    else history.None?
  }

  // What a verified history is, with no reference to how its links are computed.

  /** One commit of a labelled history: its parents are labelled; a merge has two parents, merges them
      cleanly and is labelled by its own name; any other commit follows its one parent's label, and
      carries its own unless it is a bot's. */
  ghost predicate Labelled(env: Env, links: map<Commit, string>, c: Commit) {
    && c in links && c.parents != [] && (forall i :: 0 <= i < |c.parents| ==> c.parents[i] in links)
    && if |c.parents| == 2 then env.cleanMerge(c.tree, c.parents) && links[c] == env.mergeLink(c)
       else
         && |c.parents| == 1 && links[c] == env.nextId(links[c.parents[0]], c.tree)
         && (c.bot || env.changeId(c.message) == Some(links[c]))
  }

  /** `links` labels the anchor with its seed and every commit of the range, and nothing else. */
  ghost predicate Labels(env: Env, anchor: Commit, tip: Commit, links: map<Commit, string>) {
    && anchor in links && links[anchor] == env.seed(anchor)
    && (forall c :: c in links ==> c == anchor || InRange(anchor, tip, c))
    && (forall c :: InRange(anchor, tip, c) ==> Labelled(env, links, c))
  }

  lemma LinkOfLabels(env: Env, anchor: Commit, links: map<Commit, string>, c: Commit)
    requires c in links && c != anchor && Acceptable(env, anchor, c)
    requires forall d <- links :: links[d] == LinkOf(env, anchor, d)
    requires forall i :: 0 <= i < |c.parents| ==> c.parents[i] in links
    ensures Labelled(env, links, c)
  {
  }

  /** Over the range of an accepted history the chain's links are a labelling. */
  lemma LinksAreLabels(env: Env, anchor: Commit, tip: Commit, commits: seq<Commit>, links: map<Commit, string>)
    requires Accepted(env, anchor, tip) && LinksUpTo(env, anchor, commits, links)
    requires forall c :: c in commits <==> InRange(anchor, tip, c)
    ensures Labels(env, anchor, tip, links)
  {
    forall c | InRange(anchor, tip, c)
      ensures Labelled(env, links, c)
    {
      assert Acceptable(env, anchor, c);
      ReachSelf(anchor);
      forall i | 0 <= i < |c.parents|
        ensures c.parents[i] in links
      {
        ReachParent(c, i, tip);
        assert c.parents[i] in commits <==> InRange(anchor, tip, c.parents[i]);
      }
      LinkOfLabels(env, anchor, links, c);
    }
  }

  lemma ReachSelf(c: Commit)
    ensures Reach(c, c)
  {
  }

  lemma ReachParent(c: Commit, i: nat, tip: Commit)
    requires i < |c.parents| && Reach(c, tip)
    ensures Reach(c.parents[i], tip)
  {
    assert Reach(c.parents[i], c);
    ReachTransitive(c.parents[i], c, tip);
  }

  /** There is at most one labelling, the chain's. */
  lemma {:induction false} LabelsAreLinks(env: Env, anchor: Commit, tip: Commit, links: map<Commit, string>, c: Commit)
    requires Labels(env, anchor, tip, links) && c in links
    ensures links[c] == LinkOf(env, anchor, c)
    decreases c
  {
    if c != anchor {
      assert Labelled(env, links, c);
      if |c.parents| == 1 {
        LabelsAreLinks(env, anchor, tip, links, c.parents[0]);
      }
    }
  }

  /** A history that can be labelled is accepted. */
  lemma LabelledIsAccepted(env: Env, anchor: Commit, tip: Commit, links: map<Commit, string>)
    requires Labels(env, anchor, tip, links)
    ensures Accepted(env, anchor, tip)
  {
    forall c | InRange(anchor, tip, c)
      ensures Acceptable(env, anchor, c)
    {
      assert Labelled(env, links, c);
      ReachSelf(anchor);
      LabelsAreLinks(env, anchor, tip, links, c);
      LabelsAreLinks(env, anchor, tip, links, c.parents[0]);
    }
  }

  ghost predicate CanBeLabelled(env: Env, anchor: Commit, tip: Commit) {
    exists links :: Labels(env, anchor, tip, links)
  }

  lemma OnlyAcceptedIsLabelled(env: Env, anchor: Commit, tip: Commit)
    ensures CanBeLabelled(env, anchor, tip) ==> Accepted(env, anchor, tip)
  {
    if links :| Labels(env, anchor, tip, links) {
      LabelledIsAccepted(env, anchor, tip, links);
    }
  }

  lemma VerifiedIsLabelled(env: Env, anchor: Commit, tip: Commit, commits: seq<Commit>, links: map<Commit, string>)
    requires IsHistory(anchor, tip, Some(commits)) && Accepted(env, anchor, tip)
    requires LinksUpTo(env, anchor, commits, links)
    ensures Labels(env, anchor, tip, links) && CanBeLabelled(env, anchor, tip)
  {
    forall c
      ensures c in commits <==> InRange(anchor, tip, c)
    {
      if !Reach(anchor, tip) && InRange(anchor, tip, c) {
        ReachTransitive(c, tip, anchor);
      }
    }
    LinksAreLabels(env, anchor, tip, commits, links);
  }

  /** The shortcut gives every commit of a labelled history its label. */
  lemma ShortcutFindsTheLabel(env: Env, anchor: Commit, tip: Commit, links: map<Commit, string>, c: Commit)
    requires Labels(env, anchor, tip, links) && c in links
    ensures BackLink(env, anchor, c) == Some(links[c])
  {
    LabelledIsAccepted(env, anchor, tip, links);
    ShortcutAgrees(env, anchor, tip, c);
    LabelsAreLinks(env, anchor, tip, links, c);
  }

  datatype Verdict = Links(links: map<Commit, string>) | NotDescended | NotLinked(at: Commit) | BadMerge(at: Commit)
                   | Breaks(at: Commit) | TooManyParents(at: Commit)

  /** The commit a failed verification names, and why it is not acceptable. */
  ghost predicate Blames(env: Env, anchor: Commit, v: Verdict, c: Commit) {
    match v
    case NotLinked(at) => at == c && !ParentsLinked(anchor, c)
    case BadMerge(at) => at == c && ParentsLinked(anchor, c) && |c.parents| == 2 && !env.cleanMerge(c.tree, c.parents)
    case Breaks(at) =>
      && at == c && ParentsLinked(anchor, c) && |c.parents| == 1
      && !c.bot && env.changeId(c.message) != Some(env.nextId(LinkOf(env, anchor, c.parents[0]), c.tree))
    case TooManyParents(at) => at == c && ParentsLinked(anchor, c) && |c.parents| > 2
    case _ => false
  }

  /** The first commit of the listing that is not acceptable. */
  ghost predicate BlamesFirst(env: Env, anchor: Commit, commits: seq<Commit>, v: Verdict) {
    exists k :: 0 <= k < |commits| && Blames(env, anchor, v, commits[k])
                && forall j :: 0 <= j < k ==> Acceptable(env, anchor, commits[j])
  }

  ghost predicate LinksUpTo(env: Env, anchor: Commit, commits: seq<Commit>, links: map<Commit, string>) {
    && (forall c :: c in links <==> c == anchor || c in commits)
    && (forall c <- links :: links[c] == LinkOf(env, anchor, c))
  }

  /** One commit of the loop: its link if it is acceptable, otherwise why it is not. */
  method VerifyOne(env: Env, ghost anchor: Commit, ghost tip: Commit, commits: seq<Commit>, k: nat,
                   links: map<Commit, string>)
    returns (link: string, failure: Option<Verdict>)
    requires IsRange(anchor, tip, commits) && k < |commits| && LinksUpTo(env, anchor, commits[..k], links)
    ensures failure.None? <==> Acceptable(env, anchor, commits[k])
    ensures failure.None? ==> link == LinkOf(env, anchor, commits[k])
    ensures failure.Some? ==> Blames(env, anchor, failure.value, commits[k])
  {
    var c := commits[k];
    var linked := AllLinked(c.parents, links);
    LinkedParents(env, anchor, tip, commits, k, links);
    if !linked {
      return "", Some(NotLinked(c));
    }
    if |c.parents| == 2 {
      if !env.cleanMerge(c.tree, c.parents) {
        return "", Some(BadMerge(c));
      }
      return env.mergeLink(c), None;
    } else if |c.parents| == 1 {
      var want := env.nextId(links[c.parents[0]], c.tree);
      if !c.bot && env.changeId(c.message) != Some(want) {
        return "", Some(Breaks(c));
      }
      return want, None;
    }
    return "", Some(TooManyParents(c));
  }

  /** `verify`, over the history Git lists: it accepts exactly the related histories that can be labelled,
      and the links it leaves are the labels. */
  method Verify(env: Env, anchor: Commit, tip: Commit, history: Option<seq<Commit>>) returns (v: Verdict)
    requires IsHistory(anchor, tip, history)
    ensures v.Links? <==> (Reach(anchor, tip) || Reach(tip, anchor)) && Accepted(env, anchor, tip)
    ensures v.Links? ==> LinksUpTo(env, anchor, history.value, v.links) && Labels(env, anchor, tip, v.links)
    ensures v.Links? <==> (Reach(anchor, tip) || Reach(tip, anchor)) && CanBeLabelled(env, anchor, tip)
    ensures if v.Links? then history.Some?
            else if v.NotDescended? then history.None?
            else history.Some? && BlamesFirst(env, anchor, history.value, v)
  {
    OnlyAcceptedIsLabelled(env, anchor, tip);
    if history.None? {
      return NotDescended;
    }
    var commits := history.value;
    var links := map[anchor := env.seed(anchor)];
    for k := 0 to |commits|
      invariant LinksUpTo(env, anchor, commits[..k], links)
      invariant forall j :: 0 <= j < k ==> Acceptable(env, anchor, commits[j])
    {
      var c := commits[k];
      assert InRange(anchor, tip, c);
      var link, failure := VerifyOne(env, anchor, tip, commits, k, links);
      if failure.Some? {
        return failure.value;
      }
      links := links[c := link];
      assert commits[..k + 1] == commits[..k] + [c];
    }
    assert commits[..|commits|] == commits;
    if commits == [] {
      BehindIsAccepted(env, anchor, tip);
    }
    VerifiedIsLabelled(env, anchor, tip, commits, links);
    return Links(links);
  }

  lemma BehindIsAccepted(env: Env, anchor: Commit, tip: Commit)
    ensures Reach(tip, anchor) ==> Accepted(env, anchor, tip)
  {
    if Reach(tip, anchor) {
      forall c | InRange(anchor, tip, c)
        ensures false
      {
        ReachTransitive(c, tip, anchor);
      }
    }
  }

  method AllLinked(parents: seq<Commit>, links: map<Commit, string>) returns (all: bool)
    ensures all <==> parents != [] && forall i :: 0 <= i < |parents| ==> parents[i] in links
  {
    for i := 0 to |parents|
      invariant forall j :: 0 <= j < i ==> parents[j] in links
    {
      if parents[i] !in links {
        return false;
      }
    }
    return parents != [];
  }

  /** A parent is linked before its child exactly when it is the anchor or in the range. */
  lemma LinkedParents(env: Env, anchor: Commit, tip: Commit, commits: seq<Commit>, k: nat, links: map<Commit, string>)
    requires IsRange(anchor, tip, commits) && k < |commits|
    requires LinksUpTo(env, anchor, commits[..k], links)
    ensures forall i :: 0 <= i < |commits[k].parents| ==>
              (commits[k].parents[i] in links <==> commits[k].parents[i] == anchor || !Reach(commits[k].parents[i], anchor))
    ensures commits[k] != anchor
  {
    var c := commits[k];
    assert InRange(anchor, tip, c);
    forall i | 0 <= i < |c.parents|
      ensures c.parents[i] in links <==> c.parents[i] == anchor || !Reach(c.parents[i], anchor)
    {
      var p := c.parents[i];
      assert Reach(p, c);
      ReachTransitive(p, c, tip);
      assert ParentsFirst(commits, k);
      assert p in commits <==> InRange(anchor, tip, p);
      if p in commits[..k] {
        assert p in commits;
      }
    }
  }

  // ----- link, the backward shortcut -----

  /** The walk back from a commit to the nearest one whose link can be read off. */
  function BackLink(env: Env, anchor: Commit, c: Commit): Option<string>
    decreases c
  {
    if c == anchor then Some(env.seed(anchor))
    else if |c.parents| == 2 then Some(env.mergeLink(c))
    else if |c.parents| != 1 then None
    else if !c.bot then env.changeId(c.message)
    else Onward(env, BackLink(env, anchor, c.parents[0]), c.tree)
  }

  function Onward(env: Env, previous: Option<string>, tree: string): Option<string> {
    if previous.None? then None else Some(env.nextId(previous.value, tree))
  }

  /** The trees set aside on the way back, applied last first. */
  function Unwind(env: Env, pending: seq<string>, previous: Option<string>): Option<string> {
    if pending == [] then previous
    else Unwind(env, pending[..|pending| - 1], Onward(env, previous, pending[|pending| - 1]))
  }

  lemma {:induction false} UnwindNone(env: Env, pending: seq<string>)
    ensures Unwind(env, pending, None) == None
    decreases |pending|
  {
    if pending != [] {
      UnwindNone(env, pending[..|pending| - 1]);
    }
  }

  /** `link`: nothing where the source raises. */
  method Link(env: Env, sha: Commit, anchor: Commit) returns (link: Option<string>)
    ensures link == BackLink(env, anchor, sha)
  {
    var pending: seq<string> := [];
    var c := sha;
    var previous := "";
    while c != anchor
      invariant Unwind(env, pending, BackLink(env, anchor, c)) == BackLink(env, anchor, sha)
      decreases c
    {
      if |c.parents| == 2 {
        previous := env.mergeLink(c);
        link := Apply(env, pending, previous);
        return;
      }
      if |c.parents| != 1 {
        UnwindNone(env, pending);
        return None;
      }
      if !c.bot {
        match env.changeId(c.message) {
          case None =>
            UnwindNone(env, pending);
            return None;
          case Some(id) =>
            link := Apply(env, pending, id);
            return;
        }
      }
      assert (pending + [c.tree])[..|pending|] == pending;
      pending := pending + [c.tree];
      c := c.parents[0];
    }
    link := Apply(env, pending, env.seed(anchor));
  }

  /** `for tree in reversed(pending)`. */
  method Apply(env: Env, pending: seq<string>, first: string) returns (link: Option<string>)
    ensures link == Unwind(env, pending, Some(first))
  {
    var previous := first;
    var k := |pending|;
    assert pending[..k] == pending;
    while k > 0
      invariant 0 <= k <= |pending|
      invariant Unwind(env, pending[..k], Some(previous)) == Unwind(env, pending, Some(first))
    {
      assert pending[..k][..k - 1] == pending[..k - 1];
      k := k - 1;
      previous := env.nextId(previous, pending[k]);
    }
    return Some(previous);
  }

  /** On any history `verify` accepts, whatever its merges, hooked commits and runs of bot commits, the
      shortcut gives every commit the link `verify` gave it. */
  lemma {:induction false} ShortcutAgrees(env: Env, anchor: Commit, tip: Commit, c: Commit)
    requires Accepted(env, anchor, tip)
    requires c == anchor || InRange(anchor, tip, c)
    ensures BackLink(env, anchor, c) == Some(LinkOf(env, anchor, c))
    decreases c
  {
    if c != anchor {
      assert Acceptable(env, anchor, c);
      if |c.parents| == 1 && c.bot {
        var p := c.parents[0];
        assert Reach(p, c);
        ReachTransitive(p, c, tip);
        ShortcutAgrees(env, anchor, tip, p);
      }
    }
  }

  // ----- rechain -----

  /** `rewrite` with the signature dropped: one parent, and a new stamp unless none is asked for. */
  function Rewrite(env: Env, c: Commit, parent: Commit, value: Option<string>): Commit {
    c.(signed := false, parents := [parent],
       message := if value.Some? then env.stamped(c.message, value.value) else c.message)
  }

  predicate StillValid(env: Env, c: Commit, parent: Commit, want: string) {
    && c.parents == [parent]
    && (c.bot || (env.changeId(c.message) == Some(want) && !env.hasRechained(c.message)))
  }

  function Restamped(env: Env, c: Commit, parent: Commit, want: string): Commit {
    if StillValid(env, c, parent, want) then c
    else Rewrite(env, c, parent, if c.bot then None else Some(want))
  }

  /** The rewritten suffix above `parent`, whose link is `previous`. */
  function Chain(env: Env, parent: Commit, previous: string, suffix: seq<Commit>): (out: seq<Commit>)
    ensures |out| == |suffix|
    decreases |suffix|
  {
    if suffix == [] then []
    else
      var want := env.nextId(previous, suffix[0].tree);
      var c := Restamped(env, suffix[0], parent, want);
      [c] + Chain(env, c, want, suffix[1..])
  }

  /** How many commits at the start keep their identity. */
  function Kept(env: Env, parent: Commit, previous: string, suffix: seq<Commit>): (n: nat)
    ensures n <= |suffix|
    decreases |suffix|
  {
    if suffix == [] then 0
    else
      var want := env.nextId(previous, suffix[0].tree);
      if StillValid(env, suffix[0], parent, want) then 1 + Kept(env, suffix[0], want, suffix[1..]) else 0
  }

  function Before(boundary: Commit, suffix: seq<Commit>, k: nat): Commit
    requires k <= |suffix|
  {
    if k == 0 then boundary else suffix[k - 1]
  }

  /** Each commit's one parent is the commit before it, the first one's the boundary. */
  ghost predicate Linear(boundary: Commit, suffix: seq<Commit>) {
    forall k {:trigger Before(boundary, suffix, k)} :: 0 <= k < |suffix| ==> suffix[k].parents == [Before(boundary, suffix, k)]
  }

  lemma LinearRest(boundary: Commit, suffix: seq<Commit>)
    requires suffix != [] && Linear(boundary, suffix)
    ensures suffix[0].parents == [boundary] && Linear(suffix[0], suffix[1..])
  {
    assert Before(boundary, suffix, 0) == boundary;
    forall k | 0 <= k < |suffix[1..]|
      ensures suffix[1..][k].parents == [Before(suffix[0], suffix[1..], k)]
    {
      assert Before(boundary, suffix, k + 1) == Before(suffix[0], suffix[1..], k);
    }
  }

  lemma LinearGrows(boundary: Commit, c: Commit, rest: seq<Commit>)
    requires c.parents == [boundary] && Linear(c, rest)
    ensures Linear(boundary, [c] + rest)
  {
    var all := [c] + rest;
    forall k | 0 <= k < |all|
      ensures all[k].parents == [Before(boundary, all, k)]
    {
      if k > 0 {
        assert Before(boundary, all, k) == Before(c, rest, k - 1);
      }
    }
  }

  /** The rewritten suffix is linear above the same boundary and keeps every tree; it keeps exactly the
      longest already valid beginning. */
  lemma {:induction false} ChainKeepsTrees(env: Env, parent: Commit, previous: string, suffix: seq<Commit>)
    ensures Linear(parent, Chain(env, parent, previous, suffix))
    ensures forall k :: 0 <= k < |suffix| ==> Chain(env, parent, previous, suffix)[k].tree == suffix[k].tree
    decreases |suffix|
  {
    if suffix != [] {
      var want := env.nextId(previous, suffix[0].tree);
      var c := Restamped(env, suffix[0], parent, want);
      ChainKeepsTrees(env, c, want, suffix[1..]);
      LinearGrows(parent, c, Chain(env, c, want, suffix[1..]));
    }
  }

  ghost predicate KeepsExactly(before: seq<Commit>, after: seq<Commit>, n: nat) {
    && |after| == |before|
    && forall k :: 0 <= k < |before| ==> (after[k] == before[k] <==> k < n)
  }

  lemma {:induction false} NoneKept(env: Env, boundary: Commit, parent: Commit, previous: string, suffix: seq<Commit>)
    requires Linear(boundary, suffix) && parent != boundary
    ensures KeepsExactly(suffix, Chain(env, parent, previous, suffix), 0)
    decreases |suffix|
  {
    if suffix != [] {
      var want := env.nextId(previous, suffix[0].tree);
      var c := Restamped(env, suffix[0], parent, want);
      LinearRest(boundary, suffix);
      assert c.parents == [parent];
      NoneKept(env, suffix[0], c, want, suffix[1..]);
    }
  }

  lemma {:induction false} LongestValidPrefixIsKept(env: Env, boundary: Commit, previous: string, suffix: seq<Commit>)
    requires Stamps(env) && Linear(boundary, suffix)
    ensures KeepsExactly(suffix, Chain(env, boundary, previous, suffix), Kept(env, boundary, previous, suffix))
    decreases |suffix|
  {
    if suffix != [] {
      var want := env.nextId(previous, suffix[0].tree);
      var c := Restamped(env, suffix[0], boundary, want);
      LinearRest(boundary, suffix);
      if StillValid(env, suffix[0], boundary, want) {
        LongestValidPrefixIsKept(env, c, want, suffix[1..]);
      } else {
        assert StampsOne(env, suffix[0].message, want);
        assert c != suffix[0];
        NoneKept(env, suffix[0], c, want, suffix[1..]);
      }
    }
  }

  /** A second run restamps nothing. */
  lemma {:induction false} SecondRunIsIdle(env: Env, parent: Commit, previous: string, suffix: seq<Commit>)
    requires Stamps(env)
    ensures var out := Chain(env, parent, previous, suffix);
            Chain(env, parent, previous, out) == out && Kept(env, parent, previous, out) == |out|
    decreases |suffix|
  {
    if suffix != [] {
      var want := env.nextId(previous, suffix[0].tree);
      var c := Restamped(env, suffix[0], parent, want);
      assert StampsOne(env, suffix[0].message, want);
      SecondRunIsIdle(env, c, want, suffix[1..]);
      assert StillValid(env, c, parent, want) && c.tree == suffix[0].tree;
      var out := Chain(env, parent, previous, suffix);
      assert out[1..] == Chain(env, c, want, suffix[1..]);
    }
  }

  // The repaired history is accepted.

  lemma {:induction false} ReachInChain(boundary: Commit, suffix: seq<Commit>, n: nat, x: Commit)
    requires Linear(boundary, suffix) && n <= |suffix|
    ensures n > 0 ==> (Reach(x, suffix[n - 1]) <==> Reach(x, boundary) || x in suffix[..n])
    decreases n
  {
    if n > 0 {
      var c := suffix[n - 1];
      assert c.parents == [Before(boundary, suffix, n - 1)];
      ReachInChain(boundary, suffix, n - 1, x);
      assert suffix[..n] == suffix[..n - 1] + [c];
      assert Reach(x, c) <==> x == c || Reach(x, c.parents[0]);
    }
  }

  /** The last commit of a suffix, or the boundary if there is none. */
  function Tip(boundary: Commit, suffix: seq<Commit>): Commit {
    if suffix == [] then boundary else suffix[|suffix| - 1]
  }

  /** Nothing above the anchor lies behind it. */
  lemma AboveIsNotBehind(anchor: Commit, boundary: Commit, suffix: seq<Commit>, k: nat)
    requires Linear(boundary, suffix) && k < |suffix| && Reach(anchor, boundary)
    ensures !Reach(suffix[k], anchor) && suffix[k] != anchor
  {
    var c := suffix[k];
    ReachInChain(boundary, suffix, k + 1, anchor);
    ReachInChain(boundary, suffix, k + 1, boundary);
    ReachIsLower(boundary, c);
    ReachIsLower(anchor, boundary);
    HigherThanBoundary(boundary, suffix, k);
    if Reach(c, anchor) {
      ReachIsLower(c, anchor);
    }
  }

  lemma {:induction false} HigherThanBoundary(boundary: Commit, suffix: seq<Commit>, k: nat)
    requires Linear(boundary, suffix) && k < |suffix|
    ensures Height(boundary) < Height(suffix[k])
    decreases k
  {
    assert suffix[k].parents == [Before(boundary, suffix, k)];
    ParentIsLower(suffix[k], 1, 0);
    if k > 0 {
      HigherThanBoundary(boundary, suffix, k - 1);
    }
  }

  /** The links of a rewritten suffix are the chain's, and each of its commits carries its own. */
  lemma {:induction false} ChainIsValid(env: Env, anchor: Commit, parent: Commit, previous: string, suffix: seq<Commit>, k: nat)
    requires Stamps(env) && Reach(anchor, parent) && previous == LinkOf(env, anchor, parent)
    requires k < |suffix|
    ensures LocallyValid(env, anchor, Chain(env, parent, previous, suffix)[k])
    decreases |suffix|
  {
    var want := env.nextId(previous, suffix[0].tree);
    var c := Restamped(env, suffix[0], parent, want);
    var out := Chain(env, parent, previous, suffix);
    assert StampsOne(env, suffix[0].message, want);
    assert c.parents == [parent];
    assert Linear(parent, [c]);
    AboveIsNotBehind(anchor, parent, [c], 0);
    assert LinkOf(env, anchor, c) == want;
    if k > 0 {
      assert Reach(anchor, c);
      ChainIsValid(env, anchor, c, want, suffix[1..], k - 1);
      assert out[k] == Chain(env, c, want, suffix[1..])[k - 1];
    }
  }

  /** What the repair makes of a commit: a kept one is left alone; any other loses its signature and, if
      it is not a bot's, gains one stamp, the link the chain gives it where it now stands. */
  ghost predicate Repairs(env: Env, anchor: Commit, c: Commit, c': Commit) {
    && c'.tree == c.tree && c'.bot == c.bot && c'.author == c.author
    && (c' == c || c' == Commit(c.bot, false, c.author, MessageFor(env, anchor, c, c'), c.tree, c'.parents))
    && (!c.bot ==> env.changeId(c'.message) == Some(LinkOf(env, anchor, c')) && !env.hasRechained(c'.message))
  }

  function MessageFor(env: Env, anchor: Commit, c: Commit, c': Commit): string {
    if c.bot then c.message else env.stamped(c.message, LinkOf(env, anchor, c'))
  }

  lemma {:induction false} ChainRepairs(env: Env, anchor: Commit, parent: Commit, previous: string, suffix: seq<Commit>, k: nat)
    requires Stamps(env) && Reach(anchor, parent) && previous == LinkOf(env, anchor, parent)
    requires k < |suffix|
    ensures Repairs(env, anchor, suffix[k], Chain(env, parent, previous, suffix)[k])
    decreases |suffix|
  {
    var want := env.nextId(previous, suffix[0].tree);
    var c := Restamped(env, suffix[0], parent, want);
    FirstLink(env, anchor, parent, previous, suffix[0], c);
    if k > 0 {
      ChainRepairs(env, anchor, c, want, suffix[1..], k - 1);
    } else {
      assert StampsOne(env, suffix[0].message, want);
    }
  }

  /** A commit above one parent is linked from that parent's link. */
  lemma FirstLink(env: Env, anchor: Commit, parent: Commit, previous: string, before: Commit, c: Commit)
    requires Reach(anchor, parent) && previous == LinkOf(env, anchor, parent)
    requires c.parents == [parent] && c.tree == before.tree
    ensures LinkOf(env, anchor, c) == env.nextId(previous, before.tree) && Reach(anchor, c)
  {
    assert Linear(parent, [c]);
    AboveIsNotBehind(anchor, parent, [c], 0);
    assert c.parents[0] == parent;
    ReachSelf(parent);
    assert Reach(parent, c);
    ReachTransitive(anchor, parent, c);
  }

  /** A commit that is valid where it stands: a bot's, or one whose only generated line is its own link. */
  ghost predicate Sound(env: Env, anchor: Commit, c: Commit) {
    c.bot || (env.changeId(c.message) == Some(LinkOf(env, anchor, c)) && !env.hasRechained(c.message))
  }

  ghost predicate LongestSound(env: Env, anchor: Commit, suffix: seq<Commit>, n: nat) {
    && n <= |suffix| && (forall k :: 0 <= k < n ==> Sound(env, anchor, suffix[k]))
    && (n < |suffix| ==> !Sound(env, anchor, suffix[n]))
  }

  lemma {:induction false} KeptIsLongestSound(env: Env, anchor: Commit, boundary: Commit, previous: string, suffix: seq<Commit>)
    requires Linear(boundary, suffix) && Reach(anchor, boundary) && previous == LinkOf(env, anchor, boundary)
    ensures LongestSound(env, anchor, suffix, Kept(env, boundary, previous, suffix))
    decreases |suffix|
  {
    if suffix != [] {
      var want := env.nextId(previous, suffix[0].tree);
      LinearRest(boundary, suffix);
      FirstLink(env, anchor, boundary, previous, suffix[0], suffix[0]);
      if StillValid(env, suffix[0], boundary, want) {
        KeptIsLongestSound(env, anchor, suffix[0], want, suffix[1..]);
        assert forall k :: 1 <= k < |suffix| ==> suffix[k] == suffix[1..][k - 1];
      }
    }
  }

  /** Above a boundary that is the anchor or accepted, the repaired history is accepted. */
  lemma RepairIsAccepted(env: Env, anchor: Commit, boundary: Commit, suffix: seq<Commit>)
    requires Stamps(env) && Reach(anchor, boundary) && Accepted(env, anchor, boundary)
    ensures var out := Chain(env, boundary, LinkOf(env, anchor, boundary), suffix);
            Accepted(env, anchor, Tip(boundary, out))
  {
    var out := Chain(env, boundary, LinkOf(env, anchor, boundary), suffix);
    ChainKeepsTrees(env, boundary, LinkOf(env, anchor, boundary), suffix);
    forall c | InRange(anchor, Tip(boundary, out), c)
      ensures Acceptable(env, anchor, c)
    {
      ReachInChain(boundary, out, |out|, c);
      assert out[..|out|] == out;
      if InRange(anchor, boundary, c) {
        assert Acceptable(env, anchor, c);
      } else {
        var k :| 0 <= k < |out| && out[k] == c;
        ChainIsValid(env, anchor, boundary, LinkOf(env, anchor, boundary), suffix, k);
        ChainParentLinked(anchor, boundary, out, k);
      }
    }
  }

  lemma ChainParentLinked(anchor: Commit, boundary: Commit, out: seq<Commit>, k: nat)
    requires Linear(boundary, out) && k < |out| && Reach(anchor, boundary)
    ensures ParentsLinked(anchor, out[k])
  {
    assert out[k].parents == [Before(boundary, out, k)];
    if k == 0 {
      if Reach(boundary, anchor) {
        ReachIsLower(boundary, anchor);
        ReachIsLower(anchor, boundary);
      }
    } else {
      AboveIsNotBehind(anchor, boundary, out, k - 1);
    }
  }

  // The command.

  /** The newest merge on the first-parent line of `anchor..c`. */
  function NewestMerge(anchor: Commit, c: Commit): Option<Commit>
    decreases c
  {
    if Reach(c, anchor) || c.parents == [] then None
    else if |c.parents| >= 2 then Some(c)
    else NewestMerge(anchor, c.parents[0])
  }

  /** `x` is on the first-parent line that ends in `c`. */
  ghost predicate OnFirstLine(x: Commit, c: Commit)
    decreases c
  {
    x == c || (c.parents != [] && OnFirstLine(x, c.parents[0]))
  }

  ghost predicate IsMergeAbove(anchor: Commit, c: Commit, x: Commit) {
    OnFirstLine(x, c) && !Reach(x, anchor) && |x.parents| >= 2
  }

  /** A merge of the first-parent line, with every other one further back; none exactly when there is
      none. */
  lemma {:induction false} NewestMergeIsNewest(anchor: Commit, c: Commit)
    ensures match NewestMerge(anchor, c)
            case None => forall x :: !IsMergeAbove(anchor, c, x)
            case Some(m) => IsMergeAbove(anchor, c, m) && forall x :: IsMergeAbove(anchor, c, x) ==> OnFirstLine(x, m)
    decreases c
  {
    if Reach(c, anchor) {
      forall x | OnFirstLine(x, c)
        ensures Reach(x, anchor)
      {
        FirstLineReaches(x, c);
        ReachTransitive(x, c, anchor);
      }
    } else if |c.parents| == 1 {
      NewestMergeIsNewest(anchor, c.parents[0]);
      forall x
        ensures IsMergeAbove(anchor, c, x) <==> IsMergeAbove(anchor, c.parents[0], x)
      {
        assert OnFirstLine(x, c) <==> x == c || OnFirstLine(x, c.parents[0]);
      }
    }
  }

  lemma {:induction false} FirstLineReaches(x: Commit, c: Commit)
    requires OnFirstLine(x, c)
    ensures Reach(x, c)
    decreases c
  {
    if x != c {
      FirstLineReaches(x, c.parents[0]);
    }
  }

  datatype Repair = Repaired(tip: Commit, out: seq<Commit>, count: nat) | NotVerified(why: Verdict)
                  | NoLink | Unrelated | NotLinear(at: Commit) | BadStyle(at: Commit)

  /** One commit of the loop: restamped unless it is still valid, nothing if its message needs fixing. */
  method RestampOne(env: Env, c: Commit, parent: Commit, originalParent: Commit, want: string) returns (r: Option<Commit>)
    requires Stamps(env) && c.parents == [originalParent]
    ensures r.Some? ==> r.value == Restamped(env, c, parent, want)
    ensures r.Some? ==> (r.value == c <==> StillValid(env, c, parent, want))
    ensures StillValid(env, c, parent, want) ==> r.Some? && parent == originalParent
    ensures r.None? <==> !StillValid(env, c, parent, want) && !c.bot && !env.styleOk(c.message)
  {
    if StillValid(env, c, parent, want) {
      return Some(c);
    }
    if !c.bot && !env.styleOk(c.message) {
      return None;
    }
    assert StampsOne(env, c.message, want);
    assert Rewrite(env, c, parent, if c.bot then None else Some(want)).parents == [parent];
    return Some(Rewrite(env, c, parent, if c.bot then None else Some(want)));
  }

  /** Where the loop of `rechain` stands after `k` commits. */
  ghost predicate Restamping(env: Env, boundary: Commit, first: string, suffix: seq<Commit>, k: nat,
                             parent: Commit, previous: string, out: seq<Commit>, count: nat)
    requires k <= |suffix|
  {
    && |out| == k && parent == Tip(boundary, out)
    && out + Chain(env, parent, previous, suffix[k..]) == Chain(env, boundary, first, suffix)
    && (count == 0 ==>
          && parent == Before(boundary, suffix, k)
          && Kept(env, boundary, first, suffix) == k + Kept(env, parent, previous, suffix[k..]))
    && (count > 0 ==> parent != Before(boundary, suffix, k) && count == k - Kept(env, boundary, first, suffix))
  }

  lemma RestampingStep(env: Env, boundary: Commit, first: string, suffix: seq<Commit>, k: nat,
                       parent: Commit, previous: string, out: seq<Commit>, count: nat, next: Commit, want: string)
    requires k < |suffix| && Restamping(env, boundary, first, suffix, k, parent, previous, out, count)
    requires suffix[k].parents == [Before(boundary, suffix, k)] && want == env.nextId(previous, suffix[k].tree)
    requires next == Restamped(env, suffix[k], parent, want)
    requires next == suffix[k] <==> StillValid(env, suffix[k], parent, want)
    ensures Restamping(env, boundary, first, suffix, k + 1, next, want, out + [next],
                       if next == suffix[k] then count else count + 1)
  {
    var rest := suffix[k..];
    assert rest[0] == suffix[k] && rest[1..] == suffix[k + 1..];
    assert Chain(env, parent, previous, rest) == [next] + Chain(env, next, want, rest[1..]);
    assert out + ([next] + Chain(env, next, want, rest[1..])) == (out + [next]) + Chain(env, next, want, rest[1..]);
    assert Before(boundary, suffix, k + 1) == suffix[k];
  }

  ghost predicate LinearUpTo(boundary: Commit, suffix: seq<Commit>, k: nat)
    requires k <= |suffix|
  {
    forall j {:trigger Before(boundary, suffix, j)} :: 0 <= j < k ==> suffix[j].parents == [Before(boundary, suffix, j)]
  }

  lemma LinearStep(boundary: Commit, suffix: seq<Commit>, k: nat)
    requires k < |suffix| && LinearUpTo(boundary, suffix, k)
    ensures suffix[k].parents == [Before(boundary, suffix, k)] ==> LinearUpTo(boundary, suffix, k + 1)
    ensures suffix[k].parents != [Before(boundary, suffix, k)] ==> !Linear(boundary, suffix)
  {
  }

  /** Every commit from `from` on that is not a bot's has a message the style check takes. */
  ghost predicate StyledFrom(env: Env, suffix: seq<Commit>, from: nat, to: nat)
    requires to <= |suffix|
  {
    forall k :: from <= k < to ==> suffix[k].bot || env.styleOk(suffix[k].message)
  }

  /** A suffix can be repaired exactly when it is linear and every commit past the longest already
      valid beginning has a well-styled message or is a bot's. */
  ghost predicate Repairable(env: Env, boundary: Commit, first: string, suffix: seq<Commit>) {
    Linear(boundary, suffix) && StyledFrom(env, suffix, Kept(env, boundary, first, suffix), |suffix|)
  }

  /** The loop leaves a commit alone exactly when it belongs to the kept beginning. */
  lemma ValidIsKept(env: Env, boundary: Commit, first: string, suffix: seq<Commit>, k: nat,
                    parent: Commit, previous: string, out: seq<Commit>, count: nat)
    requires k < |suffix| && Restamping(env, boundary, first, suffix, k, parent, previous, out, count)
    requires suffix[k].parents == [Before(boundary, suffix, k)]
    ensures StillValid(env, suffix[k], parent, env.nextId(previous, suffix[k].tree)) <==>
            k < Kept(env, boundary, first, suffix)
  {
    assert suffix[k..][0] == suffix[k];
  }

  /** Everything the loop knows after `k` commits. */
  ghost predicate Standing(env: Env, boundary: Commit, first: string, suffix: seq<Commit>, k: nat, parent: Commit,
                           previous: string, originalParent: Commit, out: seq<Commit>, count: nat)
  {
    && k <= |suffix| && originalParent == Before(boundary, suffix, k) && LinearUpTo(boundary, suffix, k)
    && Restamping(env, boundary, first, suffix, k, parent, previous, out, count)
    && StyledFrom(env, suffix, Kept(env, boundary, first, suffix), k)
  }

  datatype Passed = Next(commit: Commit, want: string) | Stop(repair: Repair)

  /** The first commit that stands in the way: it is not on the line, or its message needs fixing. */
  ghost predicate StopsAt(env: Env, boundary: Commit, first: string, suffix: seq<Commit>, k: nat, r: Repair) {
    && k < |suffix| && LinearUpTo(boundary, suffix, k)
    && StyledFrom(env, suffix, Kept(env, boundary, first, suffix), k)
    && (match r
        case NotLinear(at) => at == suffix[k] && suffix[k].parents != [Before(boundary, suffix, k)]
        case BadStyle(at) =>
          && at == suffix[k] && suffix[k].parents == [Before(boundary, suffix, k)]
          && Kept(env, boundary, first, suffix) <= k && !suffix[k].bot && !env.styleOk(suffix[k].message)
        case _ => false)
  }

  /** What the loop answers: the rewritten suffix and how many commits are new, exactly for a suffix that
      can be repaired; otherwise the commit that stopped it, and why. */
  ghost predicate RepairIs(env: Env, boundary: Commit, first: string, suffix: seq<Commit>, r: Repair) {
    && (r.Repaired? || r.NotLinear? || r.BadStyle?)
    && (r.Repaired? <==> Repairable(env, boundary, first, suffix))
    && (r.Repaired? ==>
          && r.out == Chain(env, boundary, first, suffix) && r.tip == Tip(boundary, r.out)
          && r.count == |suffix| - Kept(env, boundary, first, suffix))
    && (!r.Repaired? ==> exists k: nat :: StopsAt(env, boundary, first, suffix, k, r))
  }

  /** One pass of the loop. */
  method RestampNext(env: Env, ghost boundary: Commit, ghost first: string, suffix: seq<Commit>, k: nat,
                     parent: Commit, previous: string, originalParent: Commit, ghost out: seq<Commit>, ghost count: nat)
    returns (passed: Passed)
    requires Stamps(env) && k < |suffix|
    requires Standing(env, boundary, first, suffix, k, parent, previous, originalParent, out, count)
    ensures passed.Stop? ==> RepairIs(env, boundary, first, suffix, passed.repair)
    ensures passed.Next? ==>
              Standing(env, boundary, first, suffix, k + 1, passed.commit, passed.want, suffix[k],
                       out + [passed.commit], if passed.commit == suffix[k] then count else count + 1)
  {
    var c := suffix[k];
    LinearStep(boundary, suffix, k);
    if c.parents != [originalParent] {
      assert StopsAt(env, boundary, first, suffix, k, NotLinear(c));
      return Stop(NotLinear(c));
    }
    var want := env.nextId(previous, c.tree);
    var next := RestampOne(env, c, parent, originalParent, want);
    ValidIsKept(env, boundary, first, suffix, k, parent, previous, out, count);
    if next.None? {
      assert !(suffix[k].bot || env.styleOk(suffix[k].message));
      assert StopsAt(env, boundary, first, suffix, k, BadStyle(c));
      return Stop(BadStyle(c));
    }
    RestampingStep(env, boundary, first, suffix, k, parent, previous, out, count, next.value, want);
    return Next(next.value, want);
  }

  /** The loop of `rechain` over a suffix. */
  method Restamp(env: Env, boundary: Commit, first: string, suffix: seq<Commit>) returns (r: Repair)
    requires Stamps(env)
    ensures RepairIs(env, boundary, first, suffix, r)
  {
    var parent, previous, originalParent := boundary, first, boundary;
    var out: seq<Commit> := [];
    var count := 0;
    NothingRestamped(env, boundary, first, suffix);
    for k := 0 to |suffix|
      invariant Standing(env, boundary, first, suffix, k, parent, previous, originalParent, out, count)
    {
      var passed := RestampNext(env, boundary, first, suffix, k, parent, previous, originalParent, out, count);
      if passed.Stop? {
        return passed.repair;
      }
      count := if passed.commit == suffix[k] then count else count + 1;
      out := out + [passed.commit];
      parent, previous, originalParent := passed.commit, passed.want, suffix[k];
    }
    AllRestamped(env, boundary, first, suffix, parent, previous, originalParent, out, count);
    r := Repaired(parent, out, count);
  }

  lemma NothingRestamped(env: Env, boundary: Commit, first: string, suffix: seq<Commit>)
    ensures Standing(env, boundary, first, suffix, 0, boundary, first, boundary, [], 0)
  {
    assert suffix[0..] == suffix;
  }

  lemma AllRestamped(env: Env, boundary: Commit, first: string, suffix: seq<Commit>, parent: Commit, previous: string,
                     originalParent: Commit, out: seq<Commit>, count: nat)
    requires Standing(env, boundary, first, suffix, |suffix|, parent, previous, originalParent, out, count)
    ensures RepairIs(env, boundary, first, suffix, Repaired(parent, out, count))
  {
    assert suffix[|suffix|..] == [];
    assert out + [] == out;
  }

  /** Where the repair starts: published merges are left as they are. */
  function Boundary(anchor: Commit, head: Commit): Commit {
    match NewestMerge(anchor, head)
    case Some(merge) => merge
    case None => anchor
  }

  lemma {:induction false} NewestMergeIsAbove(anchor: Commit, c: Commit)
    ensures NewestMerge(anchor, c).Some? ==>
              !Reach(NewestMerge(anchor, c).value, anchor) && Reach(NewestMerge(anchor, c).value, c)
    decreases c
  {
    if !Reach(c, anchor) && |c.parents| == 1 {
      NewestMergeIsAbove(anchor, c.parents[0]);
    }
  }

  /** What a successful repair promises about the suffix it was given. */
  ghost predicate RepairPromise(env: Env, anchor: Commit, head: Commit, suffix: seq<Commit>, tip: Commit,
                                out: seq<Commit>, count: nat)
  {
    && Accepted(env, anchor, tip) && Linear(Boundary(anchor, head), out)
    && |out| == |suffix| && (forall k :: 0 <= k < |suffix| ==> Repairs(env, anchor, suffix[k], out[k]))
    && count <= |suffix| && KeepsExactly(suffix, out, |suffix| - count)
    && LongestSound(env, anchor, suffix, |suffix| - count)
    && tip == if suffix == [] then head else out[|out| - 1]
  }

  /** `rechain`, over the two histories Git lists: on success the new tip's whole history is accepted,
      the list of trees is unchanged, and exactly the longest already valid beginning keeps its
      commits. It leaves the branch alone when nothing was restamped. */
  method Rechain(env: Env, anchor: Commit, head: Commit, below: Option<seq<Commit>>, above: Option<seq<Commit>>)
    returns (r: Repair)
    requires Stamps(env)
    requires IsHistory(anchor, Boundary(anchor, head), below)
    requires IsHistory(Boundary(anchor, head), head, above)
    ensures r.Repaired? ==> above.Some? && RepairPromise(env, anchor, head, above.value, r.tip, r.out, r.count)
    ensures r.Repaired? && r.count == 0 ==> r.tip == head
    ensures r.NotVerified? <==> !(Reach(anchor, Boundary(anchor, head)) && Accepted(env, anchor, Boundary(anchor, head)))
    ensures r.Repaired? <==>
              && Reach(anchor, Boundary(anchor, head)) && Accepted(env, anchor, Boundary(anchor, head))
              && above.Some?
              && Repairable(env, Boundary(anchor, head), LinkOf(env, anchor, Boundary(anchor, head)), above.value)
    ensures r.NotLinear? || r.BadStyle? ==>
              above.Some? && exists k: nat ::
                StopsAt(env, Boundary(anchor, head), LinkOf(env, anchor, Boundary(anchor, head)), above.value, k, r)
    ensures r.Unrelated? <==> above.None? && !r.NotVerified? && !r.NoLink?
    ensures !r.NoLink?
  {
    var boundary := anchor;
    NewestMergeIsAbove(anchor, head);
    var merge := NewestMerge(anchor, head);
    if merge.Some? {
      boundary := merge.value;
      var v := Verify(env, anchor, boundary, below);
      if !v.Links? {
        return NotVerified(v);
      }
    } else {
      BehindIsAccepted(env, anchor, anchor);
    }
    assert Reach(anchor, boundary) && Accepted(env, anchor, boundary);
    ShortcutAgrees(env, anchor, boundary, boundary);
    var previous := Link(env, boundary, anchor);
    if previous.None? {
      return NoLink;
    }
    if above.None? {
      return Unrelated;
    }
    var suffix := above.value;
    r := Restamp(env, boundary, previous.value, suffix);
    if r.Repaired? {
      RepairKeepsPromise(env, anchor, head, boundary, suffix, r.count);
      if r.count == 0 {
        r := r.(tip := head);
      }
    }
  }

  lemma RepairKeepsPromise(env: Env, anchor: Commit, head: Commit, boundary: Commit, suffix: seq<Commit>, count: nat)
    requires Stamps(env) && Reach(anchor, boundary) && Accepted(env, anchor, boundary) && Linear(boundary, suffix)
    requires boundary == Boundary(anchor, head)
    requires IsHistory(boundary, head, Some(suffix)) && (boundary == anchor || Reach(boundary, head))
    requires count == |suffix| - Kept(env, boundary, LinkOf(env, anchor, boundary), suffix)
    ensures var out := Chain(env, boundary, LinkOf(env, anchor, boundary), suffix);
            && RepairPromise(env, anchor, head, suffix, if count == 0 then head else Tip(boundary, out), out, count)
  {
    var previous := LinkOf(env, anchor, boundary);
    var out := Chain(env, boundary, previous, suffix);
    ChainKeepsTrees(env, boundary, previous, suffix);
    LongestValidPrefixIsKept(env, boundary, previous, suffix);
    KeptIsLongestSound(env, anchor, boundary, previous, suffix);
    RepairIsAccepted(env, anchor, boundary, suffix);
    forall k | 0 <= k < |suffix|
      ensures Repairs(env, anchor, suffix[k], out[k])
    {
      ChainRepairs(env, anchor, boundary, previous, suffix, k);
    }
    if suffix == [] {
      EmptyRange(env, anchor, boundary, head);
    } else if count == 0 {
      assert out[|out| - 1] == suffix[|suffix| - 1];
    }
  }

  /** Nothing above the boundary: the tip is the boundary itself, or lies behind the anchor. */
  lemma EmptyRange(env: Env, anchor: Commit, boundary: Commit, head: Commit)
    requires IsHistory(boundary, head, Some([])) && Accepted(env, anchor, boundary)
    requires boundary == anchor || Reach(boundary, head)
    ensures Accepted(env, anchor, head)
  {
    if Reach(boundary, head) {
      var none: seq<Commit> := [];
      assert IsRange(boundary, head, none);
      assert head in none <==> InRange(boundary, head, head);
    }
    assert Reach(head, boundary);
    forall c | InRange(anchor, head, c)
      ensures Acceptable(env, anchor, c)
    {
      ReachTransitive(c, head, boundary);
      assert InRange(anchor, boundary, c);
    }
  }

  // The second run.

  lemma {:induction false} ChainIsDistinct(boundary: Commit, suffix: seq<Commit>, i: nat, j: nat)
    requires Linear(boundary, suffix) && i < j < |suffix|
    ensures Height(suffix[i]) < Height(suffix[j])
    decreases j
  {
    assert suffix[j].parents == [Before(boundary, suffix, j)];
    ParentIsLower(suffix[j], 1, 0);
    if i < j - 1 {
      ChainIsDistinct(boundary, suffix, i, j - 1);
    }
  }

  /** A line of commits has one listing with parents first. */
  lemma {:induction false} OneListing(boundary: Commit, suffix: seq<Commit>, listing: seq<Commit>, k: nat)
    requires Linear(boundary, suffix) && Distinct(listing)
    requires forall c :: c in listing <==> c in suffix
    requires forall j :: 0 <= j < |listing| ==> ParentsFirst(listing, j)
    requires k <= |listing|
    ensures k <= |suffix| && listing[..k] == suffix[..k]
    decreases k
  {
    if k > 0 {
      OneListing(boundary, suffix, listing, k - 1);
      var c := listing[k - 1];
      assert c in listing;
      forall a | 0 <= a < k - 1
        ensures suffix[a] != c
      {
        assert listing[a] == listing[..k - 1][a] == suffix[..k - 1][a] == suffix[a];
      }
      var m :| 0 <= m < |suffix| && suffix[m] == c;
      assert m >= k - 1;
      if m > k - 1 {
        var p := suffix[m - 1];
        assert c.parents == [Before(boundary, suffix, m)];
        assert ParentsFirst(listing, k - 1);
        assert p in suffix && p in listing && c.parents[0] == p;
        var i :| 0 <= i < k - 1 && listing[..k - 1][i] == p;
        assert suffix[..k - 1][i] == suffix[i];
        ChainIsDistinct(boundary, suffix, i, m - 1);
      }
      assert listing[..k] == listing[..k - 1] + [c];
    }
  }

  lemma ListingIsSuffix(boundary: Commit, suffix: seq<Commit>, listing: seq<Commit>)
    requires Linear(boundary, suffix) && Distinct(listing)
    requires forall c :: c in listing <==> c in suffix
    requires forall j :: 0 <= j < |listing| ==> ParentsFirst(listing, j)
    ensures listing == suffix
  {
    var n := |listing|;
    OneListing(boundary, suffix, listing, n);
    assert listing[..n] == listing;
    if n < |suffix| {
      assert suffix[n] in suffix;
      var i :| 0 <= i < n && listing[i] == suffix[n];
      assert listing[..n][i] == suffix[..n][i];
      ChainIsDistinct(boundary, suffix, i, n);
    }
  }

  lemma {:induction false} NewestMergeBelow(anchor: Commit, boundary: Commit, suffix: seq<Commit>, n: nat)
    requires Linear(boundary, suffix) && n <= |suffix| && Reach(anchor, boundary)
    ensures NewestMerge(anchor, Before(boundary, suffix, n)) == NewestMerge(anchor, boundary)
    decreases n
  {
    if n > 0 {
      assert suffix[n - 1].parents == [Before(boundary, suffix, n - 1)];
      AboveIsNotBehind(anchor, boundary, suffix, n - 1);
      NewestMergeBelow(anchor, boundary, suffix, n - 1);
    }
  }

  lemma BoundaryIsItsOwn(anchor: Commit, head: Commit)
    ensures Boundary(anchor, Boundary(anchor, head)) == Boundary(anchor, head)
  {
    NewestMergeIsAMerge(anchor, head);
  }

  lemma {:induction false} NewestMergeIsAMerge(anchor: Commit, c: Commit)
    ensures NewestMerge(anchor, c).Some? ==>
              NewestMerge(anchor, NewestMerge(anchor, c).value) == NewestMerge(anchor, c)
    decreases c
  {
    if !Reach(c, anchor) && |c.parents| == 1 {
      NewestMergeIsAMerge(anchor, c.parents[0]);
    }
  }

  /** Running the command again starts from the same boundary, is given exactly the commits the first
      run left, and restamps none of them. */
  lemma SecondRunRestampsNothing(env: Env, anchor: Commit, head: Commit, suffix: seq<Commit>, again: Option<seq<Commit>>)
    requires Stamps(env) && Reach(anchor, Boundary(anchor, head))
    requires var boundary := Boundary(anchor, head);
             IsHistory(boundary, Tip(boundary, Chain(env, boundary, LinkOf(env, anchor, boundary), suffix)), again)
    ensures var boundary := Boundary(anchor, head);
            var out := Chain(env, boundary, LinkOf(env, anchor, boundary), suffix);
            && Boundary(anchor, Tip(boundary, out)) == boundary
            && again == Some(out)
            && Chain(env, boundary, LinkOf(env, anchor, boundary), out) == out
            && Kept(env, boundary, LinkOf(env, anchor, boundary), out) == |out|
  {
    var boundary := Boundary(anchor, head);
    var previous := LinkOf(env, anchor, boundary);
    var out := Chain(env, boundary, previous, suffix);
    ChainKeepsTrees(env, boundary, previous, suffix);
    SecondRunIsIdle(env, boundary, previous, suffix);
    BoundaryIsItsOwn(anchor, head);
    NewestMergeBelow(anchor, boundary, out, |out|);
    assert Before(boundary, out, |out|) == Tip(boundary, out);
    ReachInChain(boundary, out, |out|, boundary);
    assert Reach(boundary, Tip(boundary, out));
    assert out[..|out|] == out;
    forall c
      ensures c in again.value <==> c in out
    {
      assert c in again.value <==> InRange(boundary, Tip(boundary, out), c);
      ReachInChain(boundary, out, |out|, c);
      if c in out {
        var k :| 0 <= k < |out| && out[k] == c;
        AboveIsNotBehind(boundary, boundary, out, k);
      }
    }
    ListingIsSuffix(boundary, out, again.value);
  }
}
