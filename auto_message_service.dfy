/** Auto messages: rules that send a message a fixed delay after a user
    registers, and the log that keeps each rule from reaching a user twice. */
module AutoMessageService {
  import opened Wrappers
  import opened Seqs
  import opened Models
  import opened Store

  /** Half the width of the registration window a rule looks at. */
  const WindowHalfWidth: int := 5 * Minute

  /** The user registered within five minutes, either way, of `now` minus the
      rule's delay. */
  predicate InWindow(u: User, rule: AutoMessage, now: Instant) {
    var target := now - rule.delayMinutes * Minute;
    target - WindowHalfWidth <= u.createdAt <= target + WindowHalfWidth
  }

  /** The rule's optional language and source filters; an unset or empty
      filter does not restrict. */
  predicate MatchesTargets(u: User, rule: AutoMessage) {
    && (!Truthy(rule.targetLanguage) || u.language == rule.targetLanguage.value)
    && (!Truthy(rule.targetSource) || u.source == rule.targetSource)
  }

  /** The users the selection query returns, in table order. */
  function Candidates(users: seq<User>, rule: AutoMessage, now: Instant): (r: seq<User>)
    ensures |r| <= |users|
    ensures forall i :: 0 <= i < |r| ==> InWindow(r[i], rule, now) && MatchesTargets(r[i], rule)
  {
    Filter(users, InQuery(rule, now))
  }

  /** The `WHERE` clause of the selection query. */
  function InQuery(rule: AutoMessage, now: Instant): User -> bool {
    (u: User) => InWindow(u, rule, now) && MatchesTargets(u, rule)
  }

  /** The number of log rows for a user and a rule. */
  function SentCount(log: seq<SentAutoMessage>, userId: int, ruleId: int): nat {
    if log == [] then 0
    else SentCount(log[..|log| - 1], userId, ruleId)
         + (if log[|log| - 1].userId == userId && log[|log| - 1].autoMessageId == ruleId then 1 else 0)
  }

  predicate AlreadySent(log: seq<SentAutoMessage>, userId: int, ruleId: int) {
    SentCount(log, userId, ruleId) > 0
  }

  /** The users a rule should reach now: in the window, matching the
      filters, and not yet logged for the rule, in table order. */
  function Eligible(users: seq<User>, log: seq<SentAutoMessage>, rule: AutoMessage, now: Instant): (r: seq<User>)
    ensures |r| <= |users|
    ensures forall i :: 0 <= i < |r| ==> r[i] in users && InWindow(r[i], rule, now) && MatchesTargets(r[i], rule)
    ensures forall i :: 0 <= i < |r| ==> !AlreadySent(log, r[i].id, rule.id)
  {
    FilterMembers(users, ShouldReceive(log, rule, now));
    Filter(users, ShouldReceive(log, rule, now))
  }

  function ShouldReceive(log: seq<SentAutoMessage>, rule: AutoMessage, now: Instant): User -> bool {
    (u: User) => InWindow(u, rule, now) && MatchesTargets(u, rule) && !AlreadySent(log, u.id, rule.id)
  }

  /** Soundness and completeness of the selection: a user is selected iff it
      is in the table, in the window, matches the filters and has no log row
      for the rule. */
  lemma EligibleMembers(users: seq<User>, log: seq<SentAutoMessage>, rule: AutoMessage, now: Instant)
    ensures forall u :: u in Eligible(users, log, rule, now) <==>
              u in users && InWindow(u, rule, now) && MatchesTargets(u, rule) && !AlreadySent(log, u.id, rule.id)
  {
    FilterMembers(users, ShouldReceive(log, rule, now));
  }

  /** The test the loop of the selection applies to each candidate. */
  function NotSent(log: seq<SentAutoMessage>, ruleId: int): User -> bool {
    (u: User) => !AlreadySent(log, u.id, ruleId)
  }

  /** The eligible users are the candidates that have no log row. */
  lemma EligibleAreUnsentCandidates(users: seq<User>, log: seq<SentAutoMessage>, rule: AutoMessage, now: Instant)
    ensures Filter(Candidates(users, rule, now), NotSent(log, rule.id)) == Eligible(users, log, rule, now)
  {
    FilterFilter(users, InQuery(rule, now), NotSent(log, rule.id), ShouldReceive(log, rule, now));
  }

  /** The selection: the window and filter query, then one log lookup per
      candidate. The lookup is `scalar_one_or_none`, which raises when two log
      rows exist for the pair; that is the error result. */
  method GetUsersForAutoMessage(db: Database, rule: AutoMessage, now: Instant) returns (r: Result<seq<User>, string>)
    ensures r.Err? <==> HasDuplicateRow(db.users, db.sentLog, rule, now)
    ensures r.Ok? ==> r.value == Eligible(db.users, db.sentLog, rule, now)
  {
    var log := db.sentLog;
    var all := Candidates(db.users, rule, now);
    var toSend: seq<User> := [];
    var i := 0;
    while i < |all|
      invariant 0 <= i <= |all|
      invariant toSend == Filter(all[..i], NotSent(log, rule.id))
      invariant forall k :: 0 <= k < i ==> AtMostOneRow(log, all[k], rule.id)
    {
      var user := all[i];
      var rows := SentCount(log, user.id, rule.id);
      if rows >= 2 {
        assert HasDuplicateRow(db.users, log, rule, now) by {
          assert 0 <= i < |all| && SentCount(log, all[i].id, rule.id) >= 2;
        }
        return Err("MultipleResultsFound");
      }
      SelectionStep(all, i, log, rule.id);
      assert AtMostOneRow(log, all[i], rule.id);
      toSend := if rows == 0 then toSend + [user] else toSend;
      i := i + 1;
    }
    assert !HasDuplicateRow(db.users, log, rule, now) && toSend == Eligible(db.users, log, rule, now) by {
      assert all[..i] == all;
      EligibleAreUnsentCandidates(db.users, log, rule, now);
    }
    return Ok(toSend);
  }

  /** The log lookup for a user and a rule does not raise. */
  predicate AtMostOneRow(log: seq<SentAutoMessage>, u: User, ruleId: int) {
    SentCount(log, u.id, ruleId) < 2
  }

  /** One candidate more for the selection loop: it is kept iff it has no
      log row. */
  lemma SelectionStep(all: seq<User>, i: nat, log: seq<SentAutoMessage>, ruleId: int)
    requires i < |all|
    ensures Filter(all[..i + 1], NotSent(log, ruleId))
            == Filter(all[..i], NotSent(log, ruleId)) + (if SentCount(log, all[i].id, ruleId) == 0 then [all[i]] else [])
  {
    assert all[..i + 1] == all[..i] + [all[i]];
    FilterSnoc(all[..i], all[i], NotSent(log, ruleId));
  }

  /** Some candidate has two or more log rows for the rule, which makes the
      selection raise. */
  predicate HasDuplicateRow(users: seq<User>, log: seq<SentAutoMessage>, rule: AutoMessage, now: Instant) {
    exists i :: 0 <= i < |Candidates(users, rule, now)| && SentCount(log, Candidates(users, rule, now)[i].id, rule.id) >= 2
  }

  /** What the selection yields: the eligible users, or `None` when it raises. */
  function Selection(users: seq<User>, log: seq<SentAutoMessage>, rule: AutoMessage, now: Instant): (r: Option<seq<User>>)
    ensures r.Some? ==> r.value == Filter(Candidates(users, rule, now), NotSent(log, rule.id))
    ensures r.None? ==> exists u :: u in Candidates(users, rule, now) && SentCount(log, u.id, rule.id) >= 2
  {
    EligibleAreUnsentCandidates(users, log, rule, now);
    if HasDuplicateRow(users, log, rule, now) then None else Some(Eligible(users, log, rule, now))
  }

  /** With at most one log row per pair the selection never raises. */
  lemma SelectionSucceedsWithoutDuplicates(users: seq<User>, log: seq<SentAutoMessage>, rule: AutoMessage, now: Instant)
    requires forall k :: 0 <= k < |users| ==> SentCount(log, users[k].id, rule.id) <= 1
    ensures Selection(users, log, rule, now) == Some(Eligible(users, log, rule, now))
  {
    var c := Candidates(users, rule, now);
    FilterMembers(users, InQuery(rule, now));
    forall i | 0 <= i < |c| ensures SentCount(log, c[i].id, rule.id) < 2 {
      assert c[i] in users;
    }
  }

  /** `mark_as_sent`: one log row more, nothing else. */
  method MarkAsSent(db: Database, userId: int, ruleId: int, now: Instant)
    modifies db`sentLog
    ensures db.sentLog == old(db.sentLog) + [SentAutoMessage(userId, ruleId, now)]
  {
    db.sentLog := db.sentLog + [SentAutoMessage(userId, ruleId, now)];
  }

  /** The log rows of other pairs are not affected by a row for this one. */
  lemma {:induction false} SentCountSnoc(log: seq<SentAutoMessage>, e: SentAutoMessage, userId: int, ruleId: int)
    ensures SentCount(log + [e], userId, ruleId)
            == SentCount(log, userId, ruleId) + (if e.userId == userId && e.autoMessageId == ruleId then 1 else 0)
  {
    assert (log + [e])[..|log|] == log;
  }

  /** Once a row is logged for a user and a rule, no later selection for the
      rule returns that user, at any time. */
  lemma MarkedUserNeverSelectedAgain(users: seq<User>, log: seq<SentAutoMessage>, userId: int, rule: AutoMessage, sentAt: Instant, later: Instant)
    ensures forall u :: u in Eligible(users, log + [SentAutoMessage(userId, rule.id, sentAt)], rule, later) ==> u.id != userId
  {
    SentCountSnoc(log, SentAutoMessage(userId, rule.id, sentAt), userId, rule.id);
    EligibleMembers(users, log + [SentAutoMessage(userId, rule.id, sentAt)], rule, later);
  }

  /** A row logged for another rule leaves this rule's selection unchanged. */
  lemma OtherRuleRowKeepsSelection(users: seq<User>, log: seq<SentAutoMessage>, e: SentAutoMessage, rule: AutoMessage, now: Instant)
    requires e.autoMessageId != rule.id
    ensures Eligible(users, log + [e], rule, now) == Eligible(users, log, rule, now)
  {
    forall i | 0 <= i < |users|
      ensures SentCount(log + [e], users[i].id, rule.id) == SentCount(log, users[i].id, rule.id)
    {
      SentCountSnoc(log, e, users[i].id, rule.id);
    }
    FilterCongruent(users, ShouldReceive(log + [e], rule, now), ShouldReceive(log, rule, now));
  }

  /** The rule with an id. */
  function FindAutoMessage(rules: seq<AutoMessage>, id: int): (r: Option<AutoMessage>)
    ensures r.Some? ==> r.value in rules && r.value.id == id
    ensures r.None? ==> forall i :: 0 <= i < |rules| ==> rules[i].id != id
  {
    match IndexWhere(rules, (m: AutoMessage) => m.id == id)
    case None => None
    case Some(i) => Some(rules[i])
  }

  /** All rules ordered by delay, shortest first. */
  function GetAllAutoMessages(rules: seq<AutoMessage>): (r: seq<AutoMessage>)
    ensures SortedBy(r, (m: AutoMessage) => m.delayMinutes)
    ensures multiset(r) == multiset(rules)
  {
    SortBy(rules, (m: AutoMessage) => m.delayMinutes)
  }

  /** `create_auto_message`: a new active rule without media or buttons. */
  method CreateAutoMessage(db: Database, name: string, delayMinutes: int, messages: Messages,
                           targetLanguage: Option<string>, targetSource: Option<string>, now: Instant)
    returns (rule: AutoMessage)
    requires db.Valid()
    modifies db`autoMessages
    ensures db.Valid()
    ensures db.autoMessages == old(db.autoMessages) + [rule]
    ensures rule.name == name && rule.delayMinutes == delayMinutes && rule.messages == messages
    ensures rule.targetLanguage == targetLanguage && rule.targetSource == targetSource
    ensures rule.isActive && rule.mediaType.None? && rule.mediaFileId.None? && rule.buttonsJson.None?
    ensures forall i :: 0 <= i < |old(db.autoMessages)| ==> old(db.autoMessages)[i].id != rule.id
  {
    var id := NextId(db.autoMessages, (m: AutoMessage) => m.id);
    rule := AutoMessage(id, name, delayMinutes, messages, None, None, None, targetLanguage, targetSource, true, now);
    db.autoMessages := db.autoMessages + [rule];
  }

  /** The rules after flipping `is_active` of the one with an id; unchanged
      when there is none. */
  function Toggle(rules: seq<AutoMessage>, id: int): (r: seq<AutoMessage>)
    ensures |r| == |rules|
    ensures forall i :: 0 <= i < |rules| ==> r[i].(isActive := rules[i].isActive) == rules[i]
    ensures forall i :: 0 <= i < |rules| && rules[i].id != id ==> r[i] == rules[i]
    ensures forall i :: 0 <= i < |rules| && rules[i].id == id && (forall j :: 0 <= j < i ==> rules[j].id != id) ==>
              r[i].isActive == !rules[i].isActive
    ensures (forall i :: 0 <= i < |rules| ==> rules[i].id != id) ==> r == rules
  {
    match IndexWhere(rules, (m: AutoMessage) => m.id == id)
    case None => rules
    case Some(i) => rules[i := rules[i].(isActive := !rules[i].isActive)]
  }

  /** Toggling twice restores the rules. */
  lemma ToggleTwice(rules: seq<AutoMessage>, id: int)
    ensures Toggle(Toggle(rules, id), id) == rules
  {
    var once := Toggle(rules, id);
    IndexWhereCongruent(rules, once, (m: AutoMessage) => m.id == id, (m: AutoMessage) => m.id == id);
  }

  /** `toggle_auto_message`: the flipped rule, or `None` and no change for an
      unknown id. */
  method ToggleAutoMessage(db: Database, id: int) returns (r: Option<AutoMessage>)
    modifies db`autoMessages
    ensures db.autoMessages == Toggle(old(db.autoMessages), id)
    ensures r.None? <==> forall i :: 0 <= i < |old(db.autoMessages)| ==> old(db.autoMessages)[i].id != id
    ensures r.Some? ==> r.value.id == id && r.value in db.autoMessages
    ensures r.Some? ==> r.value.(isActive := !r.value.isActive) == FindAutoMessage(old(db.autoMessages), id).value
  {
    var found := IndexWhere(db.autoMessages, (m: AutoMessage) => m.id == id);
    match found {
      case None =>
        r := None;
      case Some(i) =>
        var flipped := db.autoMessages[i].(isActive := !db.autoMessages[i].isActive);
        db.autoMessages := db.autoMessages[i := flipped];
        r := Some(flipped);
    }
  }

  /** `delete_auto_message`: true iff a rule had the id; afterwards none has. */
  method DeleteAutoMessage(db: Database, id: int) returns (deleted: bool)
    modifies db`autoMessages
    ensures deleted <==> exists i :: 0 <= i < |old(db.autoMessages)| && old(db.autoMessages)[i].id == id
    ensures db.autoMessages == Filter(old(db.autoMessages), (m: AutoMessage) => m.id != id)
    ensures FindAutoMessage(db.autoMessages, id).None?
  {
    var found := FindAutoMessage(db.autoMessages, id);
    if found.Some? {
      db.autoMessages := Filter(db.autoMessages, (m: AutoMessage) => m.id != id);
      deleted := true;
    } else {
      FilterAll(db.autoMessages, (m: AutoMessage) => m.id != id);
      deleted := false;
    }
  }
}
