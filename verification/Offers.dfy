/** Whom a catching-up session asks: in every run, only peers whose offer of the current anchor still stands. */
module StandingOffers {
  import opened RaftTypes
  import opened Sorting
  import opened SnapshotProtocol
  import opened SyncSession
  import FS = FetchScheduling

  // ---------------------------------------------------------------- offers in a run

  /** Event `i` is an offer of `a` by the peer, and the peer has not left since. */
  ghost predicate StandsFrom<Item, C>(events: seq<Event<Item, C>>, n: nat, peer: PeerId, a: Cursor, i: nat)
    requires i < n <= |events|
  {
    && events[i].Offered? && events[i].peer == peer && events[i].anchor == a
    && forall j :: i < j < n ==> !(events[j].Gone? && events[j].peer == peer)
  }

  ghost predicate OfferStands<Item, C>(events: seq<Event<Item, C>>, n: nat, peer: PeerId, a: Cursor)
    requires n <= |events|
  {
    exists i :: 0 <= i < n && StandsFrom(events, n, peer, a, i)
  }

  /** Event `i` is the first offer of anchor `c`. */
  ghost predicate FirstOffer<Item, C>(events: seq<Event<Item, C>>, c: Cursor, i: nat)
    requires i < |events|
  {
    && events[i].Offered? && events[i].anchor == c
    && forall j :: 0 <= j < i ==> !(events[j].Offered? && events[j].anchor == c)
  }

  ghost predicate WasOffered<Item, C>(events: seq<Event<Item, C>>, n: nat, c: Cursor)
    requires n <= |events|
  {
    exists i :: 0 <= i < n && FirstOffer(events, c, i)
  }

  lemma StandsNext<Item, C>(events: seq<Event<Item, C>>, n: nat, next: nat, peer: PeerId, a: Cursor)
    requires next == n + 1 <= |events|
    ensures var e := events[n];
            OfferStands(events, next, peer, a) <==>
              || (e.Offered? && e.peer == peer && e.anchor == a)
              || (OfferStands(events, n, peer, a) && !(e.Gone? && e.peer == peer))
  {
    if OfferStands(events, next, peer, a) {
      var i :| 0 <= i < next && StandsFrom(events, next, peer, a, i);
      if i < n {
        assert StandsFrom(events, n, peer, a, i);
      }
    }
    if OfferStands(events, n, peer, a) && !(events[n].Gone? && events[n].peer == peer) {
      var i :| 0 <= i < n && StandsFrom(events, n, peer, a, i);
      assert StandsFrom(events, next, peer, a, i);
    }
    if events[n].Offered? && events[n].peer == peer && events[n].anchor == a {
      assert StandsFrom(events, next, peer, a, n);
    }
  }

  // ---------------------------------------------------------------- what the session records

  /** The candidates are the offered anchors, with the count first offered and the peers whose offers stand. */
  ghost predicate RecordsCandidate<Item, C>(events: seq<Event<Item, C>>, n: nat, s: Session<Item, C>, c: Cursor)
    requires n <= |events|
  {
    && (c in s.candidates <==> WasOffered(events, n, c))
    && (forall i :: 0 <= i < n && FirstOffer(events, c, i) ==> c in s.candidates && s.candidates[c].itemsCount == events[i].itemsCount)
    && (forall p :: OfferStands(events, n, p, c) <==> c in s.candidates && p in s.candidates[c].peers)
  }

  ghost predicate Records<Item, C>(events: seq<Event<Item, C>>, n: nat, s: Session<Item, C>)
    requires n <= |events|
  {
    forall c :: RecordsCandidate(events, n, s, c)
  }

  /** Only peers of the current anchor are available, and only available ones are asked; without an anchor there is nothing. */
  ghost predicate AsksOfferers<Item, C>(s: Session<Item, C>) {
    match s.anchor
    case None => s.available == {} && s.inflight.Keys == {} && s.gap.None? && s.fetched.Keys == {} && s.accumulated == []
    case Some(a) => a in s.candidates && s.available <= s.candidates[a].peers && s.inflight.Keys <= s.available
  }

  lemma RecordingCandidate<Item, C>(events: seq<Event<Item, C>>, n: nat, next: nat, s: Session<Item, C>, c: Cursor)
    requires next == n + 1 <= |events| && Records(events, n, s) && events[n].Offered?
    ensures RecordsCandidate(events, next, Recorded(s, events[n].peer, events[n].anchor, events[n].itemsCount), c)
  {
    assert RecordsCandidate(events, n, s, c);
    if c == events[n].anchor && c !in s.candidates {
      FirstOfferAt(events, n, c);
    }
    forall p
      ensures OfferStands(events, next, p, c) <==> (OfferStands(events, n, p, c) || (p == events[n].peer && c == events[n].anchor))
    {
      StandsNext(events, n, next, p, c);
    }
    FirstOffersStay(events, n, next, c);
  }

  lemma {:induction false} EarliestOffer<Item, C>(events: seq<Event<Item, C>>, n: nat, c: Cursor, i: nat)
    requires i < n <= |events| && events[i].Offered? && events[i].anchor == c
    ensures WasOffered(events, n, c)
    decreases i
  {
    if j :| 0 <= j < i && events[j].Offered? && events[j].anchor == c {
      EarliestOffer(events, n, c, j);
    } else {
      assert FirstOffer(events, c, i);
    }
  }

  lemma FirstOfferAt<Item, C>(events: seq<Event<Item, C>>, n: nat, c: Cursor)
    requires n < |events| && events[n].Offered? && events[n].anchor == c && !WasOffered(events, n, c)
    ensures FirstOffer(events, c, n)
  {
    forall j | 0 <= j < n
      ensures !(events[j].Offered? && events[j].anchor == c)
    {
      if events[j].Offered? && events[j].anchor == c {
        EarliestOffer(events, n, c, j);
      }
    }
  }

  /** One more event adds at most itself as a first offer. */
  lemma FirstOffersStay<Item, C>(events: seq<Event<Item, C>>, n: nat, next: nat, c: Cursor)
    requires next == n + 1 <= |events|
    ensures WasOffered(events, next, c) <==> WasOffered(events, n, c) || (events[n].Offered? && events[n].anchor == c)
    ensures FirstOffer(events, c, n) ==> !WasOffered(events, n, c)
  {
    if events[n].Offered? && events[n].anchor == c {
      EarliestOffer(events, next, c, n);
    }
  }

  lemma DepartingCandidate<Item, C>(events: seq<Event<Item, C>>, n: nat, next: nat, s: Session<Item, C>, c: Cursor)
    requires next == n + 1 <= |events| && Records(events, n, s) && events[n].Gone?
    ensures RecordsCandidate(events, next, Departed(s, events[n].peer), c)
  {
    assert RecordsCandidate(events, n, s, c);
    forall p
      ensures OfferStands(events, next, p, c) <==> OfferStands(events, n, p, c) && p != events[n].peer
    {
      StandsNext(events, n, next, p, c);
    }
    FirstOffersStay(events, n, next, c);
  }

  lemma UnchangedCandidate<Item, C>(events: seq<Event<Item, C>>, n: nat, next: nat, s: Session<Item, C>, s': Session<Item, C>, c: Cursor)
    requires next == n + 1 <= |events| && Records(events, n, s) && !events[n].Gone? && !events[n].Offered? && s'.candidates == s.candidates
    ensures RecordsCandidate(events, next, s', c)
  {
    assert RecordsCandidate(events, n, s, c);
    forall p
      ensures OfferStands(events, next, p, c) <==> OfferStands(events, n, p, c)
    {
      StandsNext(events, n, next, p, c);
    }
    FirstOffersStay(events, n, next, c);
  }

  lemma {:induction false} DrainKeepsPeers<Item, C>(s: Session<Item, C>)
    ensures var s' := DrainAll(s); s'.available == s.available && s'.inflight == s.inflight
    decreases s.fetched.Keys
  {
    if Contiguous(s) {
      DrainKeepsPeers(DrainOne(s));
    }
  }

  lemma SelectingKeepsCandidates<Item, C>(s: Session<Item, C>, s': Session<Item, C>)
    requires Selects(s, s')
    ensures s'.candidates == s.candidates
    ensures AsksOfferers(s) ==> AsksOfferers(s')
  {
  }

  lemma StepKeepsRecords<Item, C>(cfg: Config, events: seq<Event<Item, C>>, n: nat, next: nat, s: Session<Item, C>, s': Session<Item, C>)
    requires next == n + 1 <= |events| && Step(cfg, s, events[n], s') && Records(events, n, s)
    ensures Records(events, next, s')
  {
    match events[n]
    case Offered(peer, anchor, itemsCount) =>
      var recorded := Recorded(s, peer, anchor, itemsCount);
      SelectingKeepsCandidates(recorded, s');
      forall c
        ensures RecordsCandidate(events, next, s', c)
      {
        RecordingCandidate(events, n, next, s, c);
        assert RecordsCandidate(events, next, recorded, c);
      }
    case Gone(peer) =>
      forall c
        ensures RecordsCandidate(events, next, s', c)
      {
        DepartingCandidate(events, n, next, s, c);
      }
    case _ =>
      if events[n].Select? {
        SelectingKeepsCandidates(s, s');
      }
      DrainKeepsRest(s);
      forall c
        ensures RecordsCandidate(events, next, s', c)
      {
        UnchangedCandidate(events, n, next, s, s', c);
      }
  }

  lemma StepAsksOfferers<Item, C>(cfg: Config, s: Session<Item, C>, e: Event<Item, C>, s': Session<Item, C>)
    requires Step(cfg, s, e, s') && AsksOfferers(s)
    ensures AsksOfferers(s')
  {
    match e
    case Offered(peer, anchor, itemsCount) => SelectingKeepsCandidates(Recorded(s, peer, anchor, itemsCount), s');
    case Select => SelectingKeepsCandidates(s, s');
    case Drain =>
      DrainKeepsRest(s);
      DrainKeepsPeers(s);
    case Schedule(taken, idle) =>
      if HasGap(s) && s.anchor.Some? {
        FS.AssignmentKeys(idle, Skip(taken, s.gap.value.start), s.gap.value.end, cfg.batch, taken);
      }
    case _ =>
  }

  lemma {:induction false} RecordsUpTo<Item, C>(cfg: Config, states: seq<Session<Item, C>>, events: seq<Event<Item, C>>, n: nat)
    requires IsRun(cfg, states, events) && n < |states|
    ensures Records(events, n, states[n]) && AsksOfferers(states[n])
  {
    if n > 0 {
      RecordsUpTo(cfg, states, events, n - 1);
      assert StepAt(cfg, states, events, n - 1);
      StepKeepsRecords(cfg, events, n - 1, n, states[n - 1], states[n]);
      StepAsksOfferers(cfg, states[n - 1], events[n - 1], states[n]);
    }
  }

  /**
   * In every run: without an anchor nobody is available or asked, and with one, whoever is available or has a fetch in
   * flight has offered that very anchor and not left since.
   */
  lemma AskedPeersOfferTheAnchor<Item, C>(cfg: Config, states: seq<Session<Item, C>>, events: seq<Event<Item, C>>, n: nat, p: PeerId)
    requires IsRun(cfg, states, events) && n < |states|
    ensures states[n].anchor.None? ==> states[n].available == {} && states[n].inflight == map[]
    ensures p in states[n].available || p in states[n].inflight ==>
              states[n].anchor.Some? && OfferStands(events, n, p, states[n].anchor.value)
  {
    RecordsUpTo(cfg, states, events, n);
    if states[n].anchor.Some? {
      assert RecordsCandidate(events, n, states[n], states[n].anchor.value);
    }
  }

  // ---------------------------------------------------------------- the anchor selected

  /** The anchor leaves no hole before the buffered entries and is ahead of the one the session has. */
  predicate Fits<Item, C>(s: Session<Item, C>, c: Cursor) {
    (s.buffered == [] || s.buffered[0].index <= c.index) && (s.anchor.None? || s.anchor.value.index < c.index)
  }

  /** The session begins anew on `a`: with the count first offered for it, nothing fetched or asked for, and all its offerers. */
  ghost predicate BeginsOn<Item, C>(events: seq<Event<Item, C>>, n: nat, s: Session<Item, C>, a: Cursor)
    requires n <= |events|
  {
    && s.anchor == Some(a) && s.inflight.Keys == {} && s.fetched.Keys == {} && s.accumulated == []
    && (exists i :: 0 <= i < n && FirstOffer(events, a, i) && s.gap == Some(Range(0, events[i].itemsCount)))
    && forall p :: p in s.available <==> OfferStands(events, n, p, a)
  }

  lemma BeginningAnew<Item, C>(events: seq<Event<Item, C>>, n: nat, s: Session<Item, C>, c: Cursor)
    requires n <= |events| && Records(events, n, s) && AsksOfferers(s) && c in s.candidates
    ensures BeginsOn(events, n, Anchored(s, c), c)
  {
    assert RecordsCandidate(events, n, s, c);
    var i :| 0 <= i < n && FirstOffer(events, c, i);
    assert Anchored(s, c).gap == Some(Range(0, events[i].itemsCount));
  }

  /** `a` is the highest of the offered anchors that fit. */
  ghost predicate HighestFit<Item, C>(events: seq<Event<Item, C>>, n: nat, s: Session<Item, C>, a: Cursor)
    requires n <= |events|
  {
    WasOffered(events, n, a) && Fits(s, a) && forall c :: WasOffered(events, n, c) && Fits(s, c) ==> c.index <= a.index
  }

  /** Either the session begins anew on the highest offered anchor that fits, or none fits and it keeps what it has. */
  ghost predicate Reselects<Item, C>(events: seq<Event<Item, C>>, n: nat, s: Session<Item, C>, s': Session<Item, C>)
    requires n <= |events|
  {
    || (exists a :: HighestFit(events, n, s, a) && BeginsOn(events, n, s', a))
    || ((forall c :: WasOffered(events, n, c) ==> !Fits(s, c))
        && s'.anchor == s.anchor && s'.gap == s.gap && s'.accumulated == s.accumulated && s'.fetched == s.fetched && s'.inflight == s.inflight)
  }

  lemma SelectingHighest<Item, C>(events: seq<Event<Item, C>>, n: nat, s: Session<Item, C>, s': Session<Item, C>)
    requires n <= |events| && Records(events, n, s) && AsksOfferers(s) && Selects(s, s')
    ensures Reselects(events, n, s, s')
  {
    forall c
      ensures WasOffered(events, n, c) && Fits(s, c) <==> Usable(s, c)
    {
      assert RecordsCandidate(events, n, s, c);
    }
    if exists c :: Best(s, c) && s' == Anchored(s, c) {
      var c :| Best(s, c) && s' == Anchored(s, c);
      BeginningAnew(events, n, s, c);
      assert HighestFit(events, n, s, c);
    }
  }

  /** What selecting looks at and what an offer adds to the list do not overlap. */
  lemma RecordingIsApart<Item, C>(events: seq<Event<Item, C>>, n: nat, s: Session<Item, C>, recorded: Session<Item, C>, s': Session<Item, C>)
    requires n <= |events| && Reselects(events, n, recorded, s')
    requires recorded == s.(candidates := recorded.candidates, available := recorded.available)
    ensures Reselects(events, n, s, s')
  {
    assert forall c: Cursor :: Fits(recorded, c) <==> Fits(s, c);
    if exists a :: HighestFit(events, n, recorded, a) && BeginsOn(events, n, s', a) {
      var a :| HighestFit(events, n, recorded, a) && BeginsOn(events, n, s', a);
      assert HighestFit(events, n, s, a);
    }
  }

  /**
   * A poll or an offer, in every run: if an offered anchor fits, the session begins anew on the highest that does, with
   * exactly the peers whose offers of it stand; otherwise it keeps its anchor and all its progress.
   */
  lemma HighestAnchorIsTaken<Item, C>(cfg: Config, states: seq<Session<Item, C>>, events: seq<Event<Item, C>>, n: nat, next: nat)
    requires IsRun(cfg, states, events) && next == n + 1 <= |events| && (events[n].Select? || events[n].Offered?)
    ensures Reselects(events, next, states[n], states[next])
  {
    var s, s', e := states[n], states[next], events[n];
    RecordsUpTo(cfg, states, events, n);
    assert StepAt(cfg, states, events, n);
    if e.Select? {
      forall c
        ensures RecordsCandidate(events, next, s, c)
      {
        UnchangedCandidate(events, n, next, s, s, c);
      }
      SelectingHighest(events, next, s, s');
    } else {
      var recorded := Recorded(s, e.peer, e.anchor, e.itemsCount);
      forall c
        ensures RecordsCandidate(events, next, recorded, c)
      {
        RecordingCandidate(events, n, next, s, c);
      }
      SelectingHighest(events, next, recorded, s');
      RecordingIsApart(events, next, s, recorded, s');
    }
  }

  // ---------------------------------------------------------------- who is available

  /** With event `i` the peer becomes available for `a`: it offers the current anchor, or the session begins on one it offers. */
  ghost predicate Joins<Item, C>(states: seq<Session<Item, C>>, events: seq<Event<Item, C>>, i: nat, p: PeerId, a: Cursor)
    requires i < |events| < |states|
  {
    && states[i + 1].anchor == Some(a)
    && ((events[i].Offered? && events[i].peer == p && events[i].anchor == a)
        || (states[i].anchor != Some(a) && OfferStands(events, i + 1, p, a)))
  }

  /** The event makes the peer unavailable. */
  predicate Drops<Item, C>(e: Event<Item, C>, p: PeerId) {
    (e.Gone? && e.peer == p) || (e.TimedOut? && p in e.peers)
  }

  ghost predicate StaysFrom<Item, C>(states: seq<Session<Item, C>>, events: seq<Event<Item, C>>, i: nat, n: nat, p: PeerId, a: Cursor)
    requires n <= |events| < |states|
  {
    forall j :: i < j < n ==> states[j].anchor == Some(a) && !Drops(events[j], p)
  }

  ghost predicate Joined<Item, C>(states: seq<Session<Item, C>>, events: seq<Event<Item, C>>, n: nat, p: PeerId, a: Cursor)
    requires n <= |events| < |states|
  {
    exists i :: 0 <= i < n && Joins(states, events, i, p, a) && StaysFrom(states, events, i, n, p, a)
  }

  lemma JoinedNext<Item, C>(states: seq<Session<Item, C>>, events: seq<Event<Item, C>>, n: nat, next: nat, p: PeerId, a: Cursor)
    requires next == n + 1 <= |events| < |states|
    ensures Joined(states, events, next, p, a) <==>
              || Joins(states, events, n, p, a)
              || (Joined(states, events, n, p, a) && states[n].anchor == Some(a) && !Drops(events[n], p))
  {
    if Joined(states, events, next, p, a) {
      var i :| 0 <= i < next && Joins(states, events, i, p, a) && StaysFrom(states, events, i, next, p, a);
      if i < n {
        assert StaysFrom(states, events, i, n, p, a);
      }
    }
    if Joins(states, events, n, p, a) {
      assert StaysFrom(states, events, n, next, p, a);
    }
    if Joined(states, events, n, p, a) && states[n].anchor == Some(a) && !Drops(events[n], p) {
      var i :| 0 <= i < n && Joins(states, events, i, p, a) && StaysFrom(states, events, i, n, p, a);
      assert StaysFrom(states, events, i, next, p, a);
    }
  }

  lemma SelectingMovesAnchor<Item, C>(s: Session<Item, C>, s': Session<Item, C>)
    requires Selects(s, s') && s'.anchor == s.anchor
    ensures s' == s
  {
  }

  lemma AvailabilityMoves<Item, C>(cfg: Config, s: Session<Item, C>, e: Event<Item, C>, s': Session<Item, C>, p: PeerId, a: Cursor)
    requires Step(cfg, s, e, s') && s.anchor == Some(a) == s'.anchor
    ensures p in s'.available <==> (e.Offered? && e.peer == p && e.anchor == a) || (p in s.available && !Drops(e, p))
  {
    match e
    case Offered(peer, anchor, itemsCount) => SelectingMovesAnchor(Recorded(s, peer, anchor, itemsCount), s');
    case Select => SelectingMovesAnchor(s, s');
    case Drain => DrainKeepsPeers(s);
    case _ =>
  }

  lemma AnchorMoves<Item, C>(cfg: Config, s: Session<Item, C>, e: Event<Item, C>, s': Session<Item, C>)
    requires Step(cfg, s, e, s') && s'.anchor != s.anchor
    ensures e.Offered? || e.Select?
  {
    if e.Drain? {
      DrainKeepsRest(s);
    }
  }

  /**
   * In every run a peer is available for the current anchor exactly when it offered it, before the session began on it or
   * since, and has neither left nor timed out after that.
   */
  lemma {:induction false} AvailableExactly<Item, C>(cfg: Config, states: seq<Session<Item, C>>, events: seq<Event<Item, C>>, n: nat, p: PeerId, a: Cursor)
    requires IsRun(cfg, states, events) && n < |states| && states[n].anchor == Some(a)
    ensures p in states[n].available <==> Joined(states, events, n, p, a)
  {
    var before := n - 1;
    assert StepAt(cfg, states, events, before);
    JoinedNext(states, events, before, n, p, a);
    if states[before].anchor == Some(a) {
      AvailableExactly(cfg, states, events, before, p, a);
      AvailabilityMoves(cfg, states[before], events[before], states[n], p, a);
    } else {
      AnchorMoves(cfg, states[before], events[before], states[n]);
      HighestAnchorIsTaken(cfg, states, events, before, n);
      StandsNext(events, before, n, p, a);
    }
  }
}
