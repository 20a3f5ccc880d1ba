/** `RaftFiniteStateMachine` of `src/ai/backend/common/distributed/raft/raft.py`:
    the term and vote bookkeeping of one Raft node, as the code does it (no
    log, so no log-consistency or up-to-date checks). */
module Raft {
  import opened Wrappers

  datatype RaftState = Follower | Candidate | Leader

  /** `sum(results)` over the peers' boolean replies. */
  function CountTrue(votes: seq<bool>): (n: nat)
    ensures n <= |votes|
  {
    if |votes| == 0 then 0 else (if votes[0] then 1 else 0) + CountTrue(votes[1..])
  }

  lemma {:induction false} CountTrueAll(votes: seq<bool>)
    requires forall i :: 0 <= i < |votes| ==> votes[i]
    ensures CountTrue(votes) == |votes|
  {
    if |votes| > 0 {
      CountTrueAll(votes[1..]);
    }
  }

  lemma {:induction false} CountTrueNone(votes: seq<bool>)
    requires forall i :: 0 <= i < |votes| ==> !votes[i]
    ensures CountTrue(votes) == 0
  {
    if |votes| > 0 {
      CountTrueNone(votes[1..]);
    }
  }

  /** `math.floor(membership / 2) + 1`. */
  function QuorumOf(membership: nat): nat {
    membership / 2 + 1
  }

  /** A quorum is a strict majority, and a cluster of at least one member can
      reach it. */
  lemma QuorumMajority(membership: nat)
    ensures 2 * QuorumOf(membership) > membership
    ensures membership >= 1 ==> QuorumOf(membership) <= membership
  {
  }

  lemma {:induction false} SubsetCard<T>(a: set<T>, b: set<T>)
    requires a <= b
    ensures |a| <= |b|
    decreases |b|
  {
    if b != {} {
      var x :| x in b;
      SubsetCard(a - {x}, b - {x});
    }
  }

  /** Any two quorums drawn from the same membership share a member. */
  lemma QuorumsIntersect<T>(members: set<T>, a: set<T>, b: set<T>)
    requires a <= members && b <= members
    requires |a| >= QuorumOf(|members|) && |b| >= QuorumOf(|members|)
    ensures a * b != {}
  {
    SubsetCard(a + b, members);
    QuorumMajority(|members|);
  }

  /** Every field of a node that its methods update. */
  datatype NodeView = NodeView(
    currentTerm: int,
    votedFor: Option<string>,
    state: RaftState,
    leaderId: Option<string>,
    elapsedTime: Option<real>,
    transitions: seq<RaftState>)

  class RaftFiniteStateMachine {
    const id: string
    const peers: seq<string>
    var currentTerm: int
    var votedFor: Option<string>
    var state: RaftState
    var leaderId: Option<string>
    /** `_elapsed_time`, which does not exist until the first `reset_timeout`. */
    var elapsedTime: Option<real>
    /** The states handed to the `on_state_changed` callback, in order. */
    var transitions: seq<RaftState>
    /** The vote this node cast in each term it voted in. */
    ghost var ballots: map<int, string>

    /** No ballot is recorded for a future term, and `votedFor` is the ballot
        of the current term. */
    ghost predicate Valid()
      reads this
    {
      && (forall t :: t in ballots ==> t <= currentTerm)
      && (votedFor.None? <==> currentTerm !in ballots)
      && (votedFor.Some? ==> ballots[currentTerm] == votedFor.value)
    }

    function View(): NodeView
      reads this
    {
      NodeView(currentTerm, votedFor, state, leaderId, elapsedTime, transitions)
    }

    /** `__init__` followed by `__ainit__`: term 0, no vote, no leader, and
        the transition to FOLLOWER. */
    constructor (id: string, peers: seq<string>)
      ensures this.id == id && this.peers == peers
      ensures View() == NodeView(0, None, Follower, None, None, [Follower])
      ensures ballots == map[]
      ensures Valid()
    {
      this.id := id;
      this.peers := peers;
      currentTerm := 0;
      votedFor := None;
      leaderId := None;
      elapsedTime := None;
      ballots := map[];
      state := Follower;
      transitions := [Follower];
    }

    /** `len(self._peers) + 1`: the peers and this node. */
    function Membership(): (m: nat)
      ensures m >= 1
    {
      |peers| + 1
    }

    /** `quorum`: a strict majority of the membership, and never more than
        all of it. */
    function Quorum(): (q: nat)
      ensures 2 * q > Membership()
      ensures q <= Membership()
    {
      QuorumMajority(Membership());
      QuorumOf(Membership())
    }

    /** `is_leader`: the known leader is this node. */
    predicate IsLeader()
      reads this
    {
      leaderId == Some(id)
    }

    /** `_execute_transition`: the new state, reported to the callback. */
    method ExecuteTransition(next: RaftState)
      modifies this
      ensures View() == old(View()).(state := next, transitions := old(transitions) + [next])
      ensures ballots == old(ballots)
    {
      state := next;
      transitions := transitions + [next];
    }

    /** `reset_timeout`. */
    method ResetTimeout()
      requires Valid()
      modifies this
      ensures Valid()
      ensures View() == old(View()).(elapsedTime := Some(0.0))
      ensures ballots == old(ballots)
    {
      elapsedTime := Some(0.0);
    }

    /** `_synchronize_term`: the term becomes the larger of the two, and
        exactly when it grows the node turns FOLLOWER and forgets its vote. */
    method SynchronizeTerm(term: int)
      requires Valid()
      modifies this
      ensures Valid()
      ensures currentTerm == if term > old(currentTerm) then term else old(currentTerm)
      ensures term > old(currentTerm) ==> View() == old(View()).(
        currentTerm := term, votedFor := None, state := Follower,
        transitions := old(transitions) + [Follower])
      ensures term <= old(currentTerm) ==> View() == old(View())
      ensures ballots == old(ballots)
    {
      if term > currentTerm {
        currentTerm := term;
        ExecuteTransition(Follower);
        votedFor := None;
      }
    }

    /** `on_append_entries`: a stale term is refused with nothing changed;
        otherwise the term is synchronised, the caller becomes the known
        leader and the election timer is reset. */
    method OnAppendEntries(term: int, leader: string) returns (ok: bool)
      requires Valid()
      modifies this
      ensures Valid()
      ensures ok <==> term >= old(currentTerm)
      ensures !ok ==> View() == old(View())
      ensures ok && term > old(currentTerm) ==> View() == old(View()).(
        currentTerm := term, votedFor := None, state := Follower,
        leaderId := Some(leader), elapsedTime := Some(0.0),
        transitions := old(transitions) + [Follower])
      ensures ok && term == old(currentTerm) ==> View() == old(View()).(
        leaderId := Some(leader), elapsedTime := Some(0.0))
      ensures ok ==> (IsLeader() <==> leader == id)
      ensures ballots == old(ballots)
    {
      if term < currentTerm {
        return false;
      }
      SynchronizeTerm(term);
      leaderId := Some(leader);
      ResetTimeout();
      return true;
    }

    /** `on_request_vote`: the term is synchronised and the timer reset
        first, whatever the outcome; the vote is granted for a term not below
        the one on entry when, after the synchronisation, the node has not
        voted or has voted for this candidate. */
    method OnRequestVote(term: int, candidate: string) returns (granted: bool)
      requires Valid()
      modifies this
      ensures Valid()
      ensures granted <==> (term > old(currentTerm) ||
        (term == old(currentTerm) && (old(votedFor).None? || old(votedFor) == Some(candidate))))
      ensures granted ==> currentTerm == term && votedFor == Some(candidate)
      ensures term > old(currentTerm) ==> View() == old(View()).(
        currentTerm := term, votedFor := Some(candidate), state := Follower,
        elapsedTime := Some(0.0), transitions := old(transitions) + [Follower])
      ensures term == old(currentTerm) && old(votedFor).None? ==> View() == old(View()).(
        votedFor := Some(candidate), elapsedTime := Some(0.0))
      ensures term < old(currentTerm) || (term == old(currentTerm) && old(votedFor).Some?) ==>
        View() == old(View()).(elapsedTime := Some(0.0))
      ensures ballots == if granted then old(ballots)[term := candidate] else old(ballots)
      ensures granted && term in old(ballots) ==> old(ballots)[term] == candidate
    {
      var entryTerm := currentTerm;
      SynchronizeTerm(term);
      ResetTimeout();
      if term < entryTerm {
        return false;
      }
      if votedFor.None? {
        votedFor := Some(candidate);
        ballots := ballots[currentTerm := candidate];
        return true;
      } else if votedFor == Some(candidate) {
        return true;
      }
      return false;
    }

    /** The tally of `_start_election`, given the peers' replies: a new term,
        a vote for itself, and LEADER exactly when its own vote and the
        granted ones reach the quorum; otherwise the FOLLOWER state the term
        change left. */
    method StartElection(votes: seq<bool>)
      requires Valid()
      requires |votes| == |peers|
      modifies this
      ensures Valid()
      ensures View() == old(View()).(
        currentTerm := old(currentTerm) + 1, votedFor := Some(id),
        state := if CountTrue(votes) + 1 >= Quorum() then Leader else Follower,
        transitions := old(transitions) + [Follower] +
          (if CountTrue(votes) + 1 >= Quorum() then [Leader] else []))
      ensures ballots == old(ballots)[old(currentTerm) + 1 := id]
      ensures old(currentTerm) + 1 !in old(ballots)
    {
      SynchronizeTerm(currentTerm + 1);
      votedFor := Some(id);
      ballots := ballots[currentTerm := id];
      if CountTrue(votes) + 1 >= Quorum() {
        ExecuteTransition(Leader);
      }
    }
  }

  /** A node with no peers wins every election on its own vote. */
  lemma SoleNodeWins(votes: seq<bool>)
    requires |votes| == 0
    ensures CountTrue(votes) + 1 >= QuorumOf(|votes| + 1)
  {
  }

  /** When every peer grants its vote the election is won, and when none does
      it is lost as soon as there is a peer. */
  lemma ElectionOutcomes(votes: seq<bool>)
    ensures (forall i :: 0 <= i < |votes| ==> votes[i]) ==> CountTrue(votes) + 1 >= QuorumOf(|votes| + 1)
    ensures (forall i :: 0 <= i < |votes| ==> !votes[i]) && |votes| >= 1 ==>
      CountTrue(votes) + 1 < QuorumOf(|votes| + 1)
  {
    if forall i :: 0 <= i < |votes| ==> votes[i] {
      CountTrueAll(votes);
    }
    if forall i :: 0 <= i < |votes| ==> !votes[i] {
      CountTrueNone(votes);
    }
  }
}
