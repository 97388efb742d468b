/** Dispatching a job in a cluster (hub/server.go, `DispatchJob` and `DispatchJobToPeer`; the /dispatch handler
    of cmd/hub/main.go): the hub that holds the agent answers, and forwarding does not spread. */
module Forwarding {
  import opened Text

  type Url = string

  /** A hub: the agents that are connected to it and the peers it knows. */
  datatype Site = Site(agents: set<string>, peers: set<Url>)

  /** What happens outside the model: whether a hub can be reached, what the agent on a hub answers, and how long
      a request to a hub takes until it is answered or has failed. */
  datatype World = World(sites: map<Url, Site>, reach: Url -> bool, answer: Url -> Option<string>, delay: Url -> nat)

  datatype Job = Job(agent: string, name: string)

  /** The hub has the agent and the agent answers before the time is up. */
  predicate Serves(w: World, u: Url, j: Job, left: nat) {
    u in w.sites && j.agent in w.sites[u].agents && w.answer(u).Some? && w.delay(u) < left
  }

  /** A peer that answers a forwarded job in time. */
  predicate Helps(w: World, u: Url, j: Job, left: nat) {
    w.reach(u) && j.agent != "" && j.name != "" && Serves(w, u, j, left)
  }

  function Minus(a: nat, b: nat): nat { if a <= b then 0 else a - b }

  /** What is left of the time that all forwards share. */
  function Remaining(w: World, asked: seq<Url>, left: nat): nat {
    if asked == [] then left
    else Minus(Remaining(w, asked[..|asked| - 1], left), w.delay(asked[|asked| - 1]))
  }

  /** Requests to different peers of a hub, never to itself. */
  predicate Bounded(w: World, at: Url, forwards: seq<Url>)
    requires at in w.sites
  {
    && (forall p | p in forwards :: p in w.sites[at].peers && p != at)
    && (forall i, j | 0 <= i < j < |forwards| :: forwards[i] != forwards[j])
  }

  /** In whatever order the peers are asked, each can answer in the time that the others leave. */
  ghost predicate Unhurried(w: World, at: Url, left: nat)
    requires at in w.sites
  {
    forall f: seq<Url> | f != [] && Bounded(w, at, f) :: w.delay(f[|f| - 1]) < Remaining(w, f[..|f| - 1], left)
  }

  /** None of these peers helped when it was asked. */
  ghost predicate AllFailed(w: World, j: Job, asked: seq<Url>, left: nat) {
    forall k | 0 <= k < |asked| :: !Helps(w, asked[k], j, Remaining(w, asked[..k], left))
  }

  /** `forwards` are the requests that the dispatch sends to other hubs, in order; `served` is the hub whose agent
      gave the answer. */
  method DispatchJob(w: World, at: Url, j: Job, allowProxy: bool, left: nat)
    returns (resp: Option<string>, served: Url, forwards: seq<Url>)
    requires at in w.sites
    ensures Bounded(w, at, forwards) && |forwards| <= |w.sites[at].peers|
    ensures !allowProxy || j.agent in w.sites[at].agents ==> forwards == []
    ensures j.agent in w.sites[at].agents ==> served == at && resp == if w.delay(at) < left then w.answer(at) else None
    // the first peer that answers in time ends the search, and without an answer all of them were asked
    ensures j.agent !in w.sites[at].agents && resp.Some? ==>
              var n := |forwards| - 1;
              && allowProxy && n >= 0 && served == forwards[n] && resp == w.answer(served)
              && Helps(w, served, j, Remaining(w, forwards[..n], left)) && AllFailed(w, j, forwards[..n], left)
    ensures j.agent !in w.sites[at].agents && resp.None? && allowProxy ==>
              AllFailed(w, j, forwards, left) && forall p | p in w.sites[at].peers && p != at :: p in forwards
    // so there is an answer exactly when some peer helps, unless slow peers use up the time
    ensures j.agent !in w.sites[at].agents && Unhurried(w, at, left) ==>
              (resp.Some? <==> allowProxy && exists p :: p in w.sites[at].peers && p != at && Helps(w, p, j, left))
    decreases allowProxy, 0
  {
    served, forwards := at, [];
    if j.agent in w.sites[at].agents {
      resp := if w.delay(at) < left then w.answer(at) else None;
      return;
    }
    if allowProxy {
      var todo := w.sites[at].peers;
      var rest := left;
      while todo != {}
        invariant todo <= w.sites[at].peers && rest == Remaining(w, forwards, left)
        invariant Bounded(w, at, forwards) && forall p | p in forwards :: p !in todo
        invariant forall p | p in w.sites[at].peers && p !in todo && p != at :: p in forwards
        invariant AllFailed(w, j, forwards, left) && |forwards| <= |w.sites[at].peers|
        decreases todo
      {
        hide Helps, Remaining, Unhurried, Bounded, AllFailed;
        var p :| p in todo;
        todo := todo - {p};
        if p != at {
          var nested;
          ghost var before := forwards;
          Asked(w, at, j, before, p, left);
          resp, served, nested := DispatchJobToPeer(w, p, j, rest);
          forwards := forwards + [p] + nested;
          assert forwards == before + [p] && forwards[..|before|] == before;
          if resp.Some? {
            RemainingLess(w, before, left);
            HelpsWithin(w, p, j, rest, left);
            return;
          }
          rest := Minus(rest, w.delay(p));
        }
      }
      if Unhurried(w, at, left) {
        NobodyHelps(w, at, j, forwards, left);
      }
    }
    resp := None;
  }

  /** The request carries X-Cluster-Proxy, so the peer may not forward it. `nested` are the requests that the
      peer sends to others on its behalf. */
  method DispatchJobToPeer(w: World, p: Url, j: Job, left: nat)
    returns (resp: Option<string>, served: Url, nested: seq<Url>)
    ensures nested == []
    ensures resp.Some? <==> Helps(w, p, j, left)
    ensures resp.Some? ==> served == p && resp == w.answer(p)
    decreases false, 1
  {
    resp, served, nested := None, p, [];
    if !w.reach(p) || p !in w.sites {
      return;
    }
    if j.agent == "" || j.name == "" {
      return;
    }
    resp, served, nested := DispatchJob(w, p, j, false, left);
  }

  /** One more request. */
  lemma Asked(w: World, at: Url, j: Job, asked: seq<Url>, p: Url, left: nat)
    requires at in w.sites && Bounded(w, at, asked) && AllFailed(w, j, asked, left)
    requires p in w.sites[at].peers && p != at && p !in asked
    ensures Bounded(w, at, asked + [p]) && |asked + [p]| <= |w.sites[at].peers|
    ensures Remaining(w, asked + [p], left) == Minus(Remaining(w, asked, left), w.delay(p))
    ensures !Helps(w, p, j, Remaining(w, asked, left)) ==> AllFailed(w, j, asked + [p], left)
  {
    hide Helps;
    var more := asked + [p];
    assert more[..|asked|] == asked;
    forall k | 0 <= k < |asked| ensures more[k] == asked[k] && more[..k] == asked[..k] {}
    AtMostOnePerPeer(more, w.sites[at].peers);
  }

  lemma {:induction false} RemainingLess(w: World, asked: seq<Url>, left: nat)
    ensures Remaining(w, asked, left) <= left
  {
    if asked != [] {
      RemainingLess(w, asked[..|asked| - 1], left);
    }
  }

  /** Help in one time is help in any other in which the request can be answered. */
  lemma HelpsWithin(w: World, p: Url, j: Job, left: nat, left': nat)
    requires Helps(w, p, j, left) && (left <= left' || w.delay(p) < left')
    ensures Helps(w, p, j, left')
  {}

  /** If all were asked without an answer and there was time for each, then nobody helps. */
  lemma NobodyHelps(w: World, at: Url, j: Job, forwards: seq<Url>, left: nat)
    requires at in w.sites && Bounded(w, at, forwards) && Unhurried(w, at, left) && AllFailed(w, j, forwards, left)
    requires forall p | p in w.sites[at].peers && p != at :: p in forwards
    ensures !exists p :: p in w.sites[at].peers && p != at && Helps(w, p, j, left)
  {
    hide Helps, Remaining;
    forall p | p in w.sites[at].peers && p != at ensures !Helps(w, p, j, left) {
      var k :| 0 <= k < |forwards| && forwards[k] == p;
      var f := forwards[..k + 1];
      assert Bounded(w, at, f) && f[..k] == forwards[..k] && f[k] == p;
      if Helps(w, p, j, left) {
        HelpsWithin(w, p, j, left, Remaining(w, forwards[..k], left));
      }
    }
  }

  lemma {:induction false} AtMostOnePerPeer(forwards: seq<Url>, peers: set<Url>)
    requires forall p | p in forwards :: p in peers
    requires forall i, j | 0 <= i < j < |forwards| :: forwards[i] != forwards[j]
    ensures |forwards| <= |peers|
  {
    if forwards != [] {
      AtMostOnePerPeer(forwards[1..], peers - {forwards[0]});
    }
  }
}
