/** Entering and leaving a giveaway (apps/bot/src/utils/giveaway/participate.ts). */
module Participate {
  import opened Wrappers
  import opened Sequences
  import opened GiveawayModel

  const NotFoundError := "That giveaway does not exist."
  const EndedError := "That giveaway has already ended."
  const RoleError := "You do not have the required role to participate in this giveaway."
  const MessageError := "Unable to fetch giveaway message."
  const ProcessingError := "An error occurred processing your request."

  datatype Action = Added | Removed

  datatype ParticipationResult = ParticipationResult(success: bool, error: Option<string>, action: Option<Action>)

  /** What happens after the toggle is saved: the giveaway message is refreshed, cannot be
      fetched, or its edit throws. */
  datatype Refresh = Refreshed | MessageMissing | EditFailed

  /** The toggle: a present user is filtered out (every occurrence), an absent one pushed once. */
  function Toggle(participants: seq<string>, userId: string): (r: seq<string>)
    ensures userId in r <==> userId !in participants
    ensures forall v :: v != userId ==> (v in r <==> v in participants)
  {
    if userId in participants then Without(participants, userId) else participants + [userId]
  }

  /** Toggling keeps the participant list free of duplicates. */
  lemma ToggleDistinct(participants: seq<string>, userId: string)
    requires Distinct(participants)
    ensures Distinct(Toggle(participants, userId))
  {
    if userId in participants {
      DistinctSub(Toggle(participants, userId), participants);
    } else {
      assert multiset(participants + [userId]) == multiset(participants) + multiset{userId};
    }
  }

  /** Two toggles by the same user restore the original membership of everyone, and
      restore the list itself when the user was not in it. */
  lemma {:induction false} ToggleTwice(participants: seq<string>, userId: string)
    ensures forall v :: v in Toggle(Toggle(participants, userId), userId) <==> v in participants
    ensures userId !in participants ==> Toggle(Toggle(participants, userId), userId) == participants
  {
    if userId !in participants {
      WithoutAppended(participants, userId);
    }
  }

  /** Filtering a user out of a list that ends with their single entry gives back the rest. */
  lemma {:induction false} WithoutAppended(s: seq<string>, x: string)
    requires x !in s
    ensures Without(s + [x], x) == s
  {
    if s == [] {
      assert [x][1..] == [];
    } else {
      WithoutAppended(s[1..], x);
      WithoutAppendedStep(s, x);
    }
  }

  lemma WithoutAppendedStep(s: seq<string>, x: string)
    requires s != [] && s[0] != x && Without(s[1..] + [x], x) == s[1..]
    ensures Without(s + [x], x) == s
  {
    AppendedTail(s, x);
    WithoutKeepsHead(s + [x], x);
  }

  lemma AppendedTail(s: seq<string>, x: string)
    requires s != []
    ensures (s + [x])[0] == s[0] && (s + [x])[1..] == s[1..] + [x]
    ensures [s[0]] + s[1..] == s
  {
  }

  lemma WithoutKeepsHead(t: seq<string>, x: string)
    requires t != [] && t[0] != x
    ensures Without(t, x) == [t[0]] + Without(t[1..], x)
  {
  }

  /** `Boolean(giveaway.requiredRole)`: a role is required when it is set and not empty. */
  predicate RequiresRole(g: Giveaway) {
    g.requiredRole.Some? && g.requiredRole.value != ""
  }

  /** The `action` reported after a toggle: "added" exactly when the user is now a participant. */
  function ActionAfter(participants: seq<string>, userId: string): (a: Action)
    ensures a == Added <==> userId !in participants
  {
    if userId in Toggle(participants, userId) then Added else Removed
  }

  /** `execute(giveawayId, userId, ...)`: "not found", "ended" and "required role" reject
      before any change; otherwise the toggle is saved (`saveOk`), and only then is the
      message refreshed, whose failure is reported although the toggle stays saved.
      The banned-user list is not consulted. */
  method Execute(store: GiveawayStore, giveawayId: int, userId: string, userRoles: seq<string>,
                 saveOk: bool, refresh: Refresh)
    returns (r: ParticipationResult)
    requires store.Valid()
    modifies store
    ensures store.Valid()
    ensures store.settings == old(store.settings)
    ensures EndedStaysEnded(old(store.giveaways), store.giveaways)
    ensures giveawayId !in old(store.giveaways) ==>
      r == ParticipationResult(false, Some(NotFoundError), None) && store.giveaways == old(store.giveaways)
    ensures giveawayId in old(store.giveaways) && old(store.giveaways)[giveawayId].ended ==>
      r == ParticipationResult(false, Some(EndedError), None) && store.giveaways == old(store.giveaways)
    ensures giveawayId in old(store.giveaways) && !old(store.giveaways)[giveawayId].ended
            && RequiresRole(old(store.giveaways)[giveawayId])
            && old(store.giveaways)[giveawayId].requiredRole.value !in userRoles ==>
      r == ParticipationResult(false, Some(RoleError), None) && store.giveaways == old(store.giveaways)
    ensures giveawayId in old(store.giveaways) && !old(store.giveaways)[giveawayId].ended
            && (RequiresRole(old(store.giveaways)[giveawayId]) ==> old(store.giveaways)[giveawayId].requiredRole.value in userRoles) ==>
      var g := old(store.giveaways)[giveawayId];
      && (!saveOk ==> r == ParticipationResult(false, Some(ProcessingError), None) && store.giveaways == old(store.giveaways))
      && (saveOk ==> store.giveaways == old(store.giveaways)[giveawayId := g.(participants := Toggle(g.participants, userId))])
      && (saveOk && refresh == Refreshed ==> r == ParticipationResult(true, None, Some(ActionAfter(g.participants, userId))))
      && (saveOk && refresh == MessageMissing ==> r == ParticipationResult(false, Some(MessageError), None))
      && (saveOk && refresh == EditFailed ==> r == ParticipationResult(false, Some(ProcessingError), None))
  {
    if giveawayId !in store.giveaways {
      return ParticipationResult(false, Some(NotFoundError), None);
    }
    var g := store.giveaways[giveawayId];
    if g.ended {
      return ParticipationResult(false, Some(EndedError), None);
    }
    if RequiresRole(g) && g.requiredRole.value !in userRoles {
      return ParticipationResult(false, Some(RoleError), None);
    }
    var participants := g.participants;
    if userId in participants {
      participants := Without(participants, userId);
    } else {
      participants := participants + [userId];
    }
    if !saveOk {
      return ParticipationResult(false, Some(ProcessingError), None);
    }
    ToggleDistinct(g.participants, userId);
    UpdateKeepsInvariant(store.giveaways, store.settings, giveawayId, g.(participants := participants));
    store.giveaways := store.giveaways[giveawayId := g.(participants := participants)];
    match refresh {
      case MessageMissing => return ParticipationResult(false, Some(MessageError), None);
      case EditFailed => return ParticipationResult(false, Some(ProcessingError), None);
      case Refreshed =>
        r := ParticipationResult(true, None, Some(if userId in participants then Added else Removed));
    }
  }
}
