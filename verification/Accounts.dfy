/** The master's mirror of which trading gateway manages which accounts: frames read from the
    event channel, gateways that stop, and the answer of last resort to account queries. */
module Accounts {

  type Gateway = string
  type Account = string

  /** An account-status frame; a frame too short for its payload carries nothing. */
  datatype Frame = Short | Status(gateway: Gateway, account: Account, offline: bool)

  datatype Query = ShortQuery | Query(account: Account)

  type Mirror = map<Gateway, set<Account>>

  predicate Manages(m: Mirror, g: Gateway, a: Account) { g in m && a in m[g] }

  predicate NoEmptySets(m: Mirror) { forall g :: g in m ==> m[g] != {} }

  // ----- handlers ---------------------------------------------------------------------------------

  function Without(m: Mirror, g: Gateway, a: Account): Mirror {
    if g !in m then m
    else if m[g] - {a} == {} then m - {g}
    else m[g := m[g] - {a}]
  }

  function With(m: Mirror, g: Gateway, a: Account): Mirror { m[g := (if g in m then m[g] else {}) + {a}] }

  /** A frame without a gateway is the master's own fallback coming back and is ignored. */
  function HandleStatus(m: Mirror, f: Frame): Mirror {
    if f.Short? || f.gateway == "" then m
    else if f.offline then Without(m, f.gateway, f.account)
    else With(m, f.gateway, f.account)
  }

  /** One Offline frame for every account of the gateway. */
  ghost predicate AllOffline(frames: seq<Frame>, m: Mirror, g: Gateway) {
    && (forall i, j :: 0 <= i < j < |frames| ==> frames[i] != frames[j])
    && (forall f :: f in frames ==> f.Status? && f.gateway == g && f.offline && Manages(m, g, f.account))
    && (forall a :: Manages(m, g, a) ==> Status(g, a, true) in frames)
  }

  /** The query is answered from here exactly when it names an account no gateway manages. */
  ghost predicate FallsBack(m: Mirror, q: Query) {
    q.Query? && q.account != "" && forall g :: !Manages(m, g, q.account)
  }

  class AccountMirror {
    var mirror: Mirror
    ghost var sent: seq<Frame>

    constructor ()
      ensures mirror == map[] && sent == []
    {
      mirror, sent := map[], [];
    }

    method HandleAccountStatus(f: Frame)
      modifies this`mirror
      ensures mirror == HandleStatus(old(mirror), f)
    {
      if f.Short? || f.gateway == "" { return; }
      if f.offline {
        if f.gateway in mirror {
          mirror := mirror[f.gateway := mirror[f.gateway] - {f.account}];
          if mirror[f.gateway] == {} { mirror := mirror - {f.gateway}; }
        }
        assert mirror == Without(old(mirror), f.gateway, f.account);
        return;
      }
      if f.gateway !in mirror { mirror := mirror[f.gateway := {}]; }
      mirror := mirror[f.gateway := mirror[f.gateway] + {f.account}];
      assert mirror == With(old(mirror), f.gateway, f.account);
    }

    method HandleQuery(q: Query) returns (answered: bool)
      modifies this`sent
      ensures answered <==> FallsBack(mirror, q)
      ensures sent == old(sent) + if answered then [Status("", q.account, true)] else []
    {
      if q.ShortQuery? || q.account == "" { return false; }
      var left := mirror.Keys;
      while left != {}
        invariant left <= mirror.Keys
        invariant forall g :: g in mirror && g !in left ==> q.account !in mirror[g]
        decreases |left|
      {
        var g :| g in left;
        left := left - {g};
        if q.account in mirror[g] {
          assert Manages(mirror, g, q.account);
          return false;
        }
      }
      sent := sent + [Status("", q.account, true)];
      return true;
    }

    method NotifyTdStopped(g: Gateway)
      modifies this
      ensures mirror == old(mirror) - {g}
      ensures exists frames :: AllOffline(frames, old(mirror), g) && sent == old(sent) + frames
    {
      if g !in mirror {
        assert AllOffline([], mirror, g) && sent + [] == sent;
        assert mirror - {g} == mirror;
        return;
      }
      var left := mirror[g];
      ghost var frames: seq<Frame> := [];
      while left != {}
        invariant mirror == old(mirror) && left <= mirror[g] && sent == old(sent) + frames
        invariant forall i, j :: 0 <= i < j < |frames| ==> frames[i] != frames[j]
        invariant forall f :: f in frames ==>
          f.Status? && f.gateway == g && f.offline && Manages(mirror, g, f.account) && f.account !in left
        invariant forall a :: a in mirror[g] && a !in left ==> Status(g, a, true) in frames
        decreases |left|
      {
        var a :| a in left;
        left := left - {a};
        frames := frames + [Status(g, a, true)];
        sent := sent + [Status(g, a, true)];
      }
      assert AllOffline(frames, mirror, g);
      ForgetTdAccounts(g);
    }

    method ForgetTdAccounts(g: Gateway)
      modifies this`mirror
      ensures mirror == old(mirror) - {g}
    {
      mirror := mirror - {g};
    }
  }

  // ----- the mirror is the latest word ---------------------------------------------------------------

  datatype Event = Read(frame: Frame) | Stopped(gateway: Gateway)

  function Next(m: Mirror, e: Event): Mirror {
    match e
    case Read(f) => HandleStatus(m, f)
    case Stopped(g) => m - {g}
  }

  function Run(m: Mirror, es: seq<Event>): Mirror {
    if es == [] then m else Next(Run(m, es[..|es| - 1]), es[|es| - 1])
  }

  /** The event says something about this account under this gateway. */
  predicate Concerns(e: Event, g: Gateway, a: Account) {
    match e
    case Read(f) => f.Status? && f.gateway == g && g != "" && f.account == a
    case Stopped(h) => h == g
  }

  predicate Online(e: Event) { e.Read? && e.frame.Status? && !e.frame.offline }

  /** The last event that concerns them is a status other than Offline. */
  ghost predicate LatestOnline(es: seq<Event>, g: Gateway, a: Account) {
    exists i :: 0 <= i < |es| && Concerns(es[i], g, a) && Online(es[i])
      && forall j :: i < j < |es| ==> !Concerns(es[j], g, a)
  }

  lemma LatestStep(es: seq<Event>, e: Event, g: Gateway, a: Account)
    ensures LatestOnline(es + [e], g, a) <==> if Concerns(e, g, a) then Online(e) else LatestOnline(es, g, a)
  {
    var all := es + [e];
    hide Concerns, Online;
    assert forall i :: 0 <= i < |es| ==> all[i] == es[i];
    if Concerns(e, g, a) {
      assert all[|es|] == e;
    } else if LatestOnline(es, g, a) {
      var i :| 0 <= i < |es| && Concerns(es[i], g, a) && Online(es[i]) && forall j :: i < j < |es| ==> !Concerns(es[j], g, a);
      assert Concerns(all[i], g, a);
    }
  }

  /** After any frames, the master's own echoes among them, and any stops: an account is under a
      gateway exactly when the latest event that concerns the two is a status other than
      Offline, and no gateway is left with no accounts. */
  lemma {:induction false} MirrorIsLatestWord(es: seq<Event>, g: Gateway, a: Account)
    ensures Manages(Run(map[], es), g, a) <==> LatestOnline(es, g, a)
    ensures NoEmptySets(Run(map[], es))
  {
    if es != [] {
      var front, e := es[..|es| - 1], es[|es| - 1];
      MirrorIsLatestWord(front, g, a);
      LatestStep(front, e, g, a);
      assert es == front + [e];
      hide LatestOnline, Run;
      assert Run(map[], es) == Next(Run(map[], front), e) by { RunLast(front, e); }
    }
  }

  lemma RunLast(es: seq<Event>, e: Event)
    ensures Run(map[], es + [e]) == Next(Run(map[], es), e)
  {
    assert (es + [e])[..|es|] == es;
  }

  /** So a well-formed query that names an account is answered from here exactly when the
      latest word about that account, under every gateway, is Offline, a stop, or none. */
  lemma FallbackExactly(es: seq<Event>, account: Account)
    requires account != ""
    ensures FallsBack(Run(map[], es), Query(account)) <==> forall g :: !LatestOnline(es, g, account)
  {
    forall g ensures Manages(Run(map[], es), g, account) <==> LatestOnline(es, g, account) {
      MirrorIsLatestWord(es, g, account);
    }
    hide LatestOnline, Run, Manages;
  }

  // ----- frames still in the channel when a gateway stops ------------------------------------------------

  function Reads(frames: seq<Frame>): (es: seq<Event>)
    ensures |es| == |frames| && forall i :: 0 <= i < |es| ==> es[i] == Read(frames[i])
  {
    seq(|frames|, i requires 0 <= i < |frames| => Read(frames[i]))
  }

  function RunFrom(m: Mirror, frames: seq<Frame>): Mirror { Run(m, Reads(frames)) }

  lemma RunConcat(m: Mirror, a: seq<Event>, b: seq<Event>)
    ensures Run(m, a + b) == Run(Run(m, a), b)
  {
    if b == [] {
      assert a + b == a;
    } else {
      assert (a + b)[..|a + b| - 1] == a + b[..|b| - 1];
      RunConcat(m, a, b[..|b| - 1]);
    }
  }

  ghost predicate Untouched(es: seq<Event>, g: Gateway, a: Account) { forall i :: 0 <= i < |es| ==> !Concerns(es[i], g, a) }

  lemma UntouchedStep(es: seq<Event>, e: Event, g: Gateway, a: Account)
    ensures Untouched(es + [e], g, a) <==> Untouched(es, g, a) && !Concerns(e, g, a)
  {
    var all := es + [e];
    assert forall i :: 0 <= i < |es| ==> all[i] == es[i];
    assert all[|es|] == e;
    hide Concerns;
  }

  /** From any mirror: the latest word, or the mirror's own when nothing was said. */
  lemma {:induction false} RunMeans(m: Mirror, es: seq<Event>, g: Gateway, a: Account)
    ensures Manages(Run(m, es), g, a) <==> LatestOnline(es, g, a) || (Manages(m, g, a) && Untouched(es, g, a))
  {
    if es != [] {
      var front, e := es[..|es| - 1], es[|es| - 1];
      assert es == front + [e] && Run(m, es) == Next(Run(m, front), e);
      hide LatestOnline, Run, Concerns, Next, Manages, Online, Untouched;
      RunMeans(m, front, g, a);
      LatestStep(front, e, g, a);
      UntouchedStep(front, e, g, a);
      NextMeans(Run(m, front), e, g, a);
    }
  }

  lemma NextMeans(m: Mirror, e: Event, g: Gateway, a: Account)
    ensures Manages(Next(m, e), g, a) <==> if Concerns(e, g, a) then Online(e) else Manages(m, g, a)
  {
    if e.Read? && e.frame.Status? && Manages(m, g, a) && e.frame.account != a {
      assert a in m[g] - {e.frame.account};
    }
  }

  /** The mirror after a gateway stopped while frames were waiting in the channel and everything
      was then read: the waiting frames, and behind them the Offline frames of the stop. */
  function Drained(m: Mirror, g: Gateway, waiting: seq<Frame>, offlines: seq<Frame>): Mirror {
    RunFrom(RunFrom(m - {g}, waiting), offlines)
  }

  /** A stopped gateway is meant to manage nothing. It still does, with no event left that would
      end it, exactly for an account the mirror did not list at the stop and whose last frame
      then waiting was not Offline; queries for that account go unanswered. */
  lemma StoppedGatewayLingersExactly(m: Mirror, g: Gateway, waiting: seq<Frame>, offlines: seq<Frame>, a: Account)
    requires AllOffline(offlines, m, g) && g != ""
    ensures Manages(Drained(m, g, waiting, offlines), g, a) <==> !Manages(m, g, a) && LatestOnline(Reads(waiting), g, a)
  {
    var w, o := Reads(waiting), Reads(offlines);
    RunMeans(m - {g}, w, g, a);
    RunMeans(Run(m - {g}, w), o, g, a);
    forall i | 0 <= i < |o| ensures !Online(o[i]) && (Concerns(o[i], g, a) ==> Manages(m, g, a)) {
      assert offlines[i] in offlines;
    }
    if Manages(m, g, a) {
      var i :| 0 <= i < |offlines| && offlines[i] == Status(g, a, true);
      assert Concerns(o[i], g, a);
    }
    hide Run, Concerns, Online;
  }

  /** Such a run: the gateway's first frame is still in the channel when it stops. */
  lemma LingeringExample()
    ensures Manages(Drained(map[], "td", [Status("td", "acc", false)], []), "td", "acc")
  {
    var waiting := [Status("td", "acc", false)];
    assert Concerns(Reads(waiting)[0], "td", "acc") && Online(Reads(waiting)[0]);
    StoppedGatewayLingersExactly(map[], "td", waiting, [], "acc");
  }
}
