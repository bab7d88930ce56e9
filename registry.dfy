/**
  The activity registry of the Mergington High School API: the records it
  holds, the signup operation as a function from one catalog to the next, and
  the properties signup keeps across one call and across a run of calls.
 */
module Registry {

  type Name = string
  type Email = string

  /** One activity record. `nested` holds records that the seed catalog puts
      inside another record as extra keys; they are data of that record, never
      activities that can be looked up. */
  datatype Activity = Activity(
    description: string,
    schedule: string,
    maxParticipants: int,
    participants: seq<Email>,
    nested: map<Name, Activity>)

  /** The registry: activity name to record. Lookup is by exact key. */
  type Catalog = map<Name, Activity>

  datatype SignupError = ActivityNotFound | AlreadySignedUp
  {
    /** The detail text the API reports with the error; each text names
        exactly one error. */
    function Detail(): (d: string)
      ensures d == "Activity not found" <==> this == ActivityNotFound
      ensures d == "Student already signed up" <==> this == AlreadySignedUp
    {
      match this
      case ActivityNotFound => "Activity not found"
      case AlreadySignedUp => "Student already signed up"
    }
  }

  datatype Response = Signed(message: string) | Rejected(error: SignupError)

  /** A signup request as the API receives it. */
  datatype Request = Request(activityName: Name, email: Email)

  predicate NoDuplicates(s: seq<Email>)
  {
    forall i, j :: 0 <= i < j < |s| ==> s[i] != s[j]
  }

  /** Every roster of the catalog is free of duplicate emails. */
  predicate RostersDistinct(c: Catalog)
  {
    forall n :: n in c ==> NoDuplicates(c[n].participants)
  }

  /** Everything of a record except its roster is the same in `a` and `b`. */
  predicate SameDetails(a: Activity, b: Activity)
  {
    && a.description == b.description
    && a.schedule == b.schedule
    && a.maxParticipants == b.maxParticipants
    && a.nested == b.nested
  }

  predicate OccursAt(s: string, t: string, i: int)
  {
    0 <= i && i + |t| <= |s| && s[i..i + |t|] == t
  }

  /** `t` is a substring of `s`. */
  predicate Mentions(s: string, t: string)
  {
    exists i :: 0 <= i <= |s| && OccursAt(s, t, i)
  }

  /** The confirmation text of a successful signup. */
  function Message(email: Email, activityName: Name): string
  {
    "Signed up " + email + " for " + activityName
  }

  lemma MessageMentions(email: Email, activityName: Name)
    ensures OccursAt(Message(email, activityName), "Signed up ", 0)
    ensures Mentions(Message(email, activityName), email)
    ensures Mentions(Message(email, activityName), activityName)
  {
    var m := Message(email, activityName);
    assert m[..10] == "Signed up ";
    assert m[10..10 + |email|] == email;
    assert OccursAt(m, email, 10);
    var k := 15 + |email|;
    assert m[k..k + |activityName|] == activityName;
    assert OccursAt(m, activityName, k);
  }

  /** Signup on a catalog: the new catalog and the response. */
  function Signup(c: Catalog, activityName: Name, email: Email): (r: (Catalog, Response))
    ensures activityName !in c ==> r == (c, Rejected(ActivityNotFound))
    ensures r.1.Rejected? ==>
      r.1.error.Detail() == if activityName !in c then "Activity not found" else "Student already signed up"
    ensures activityName in c && email in c[activityName].participants ==>
      r == (c, Rejected(AlreadySignedUp))
    ensures activityName in c && email !in c[activityName].participants ==>
      && r.1 == Signed(Message(email, activityName))
      && r.0.Keys == c.Keys
      && r.0[activityName].participants == c[activityName].participants + [email]
      && SameDetails(c[activityName], r.0[activityName])
      && (forall n :: n in c && n != activityName ==> r.0[n] == c[n])
  {
    if activityName !in c then
      (c, Rejected(ActivityNotFound))
    else
      var activity := c[activityName];
      if email in activity.participants then
        (c, Rejected(AlreadySignedUp))
      else
        (c[activityName := activity.(participants := activity.participants + [email])],
         Signed(Message(email, activityName)))
  }

  /** The catalog after serving `reqs` in order. */
  function Run(c: Catalog, reqs: seq<Request>): (r: Catalog)
    ensures r.Keys == c.Keys
    ensures forall n :: n in c ==>
      SameDetails(c[n], r[n]) && c[n].participants <= r[n].participants
    decreases |reqs|
  {
    if reqs == [] then c
    else Run(Signup(c, reqs[0].activityName, reqs[0].email).0, reqs[1..])
  }

  lemma SignupKeepsDistinct(c: Catalog, activityName: Name, email: Email)
    requires RostersDistinct(c)
    ensures RostersDistinct(Signup(c, activityName, email).0)
  {
  }

  /** Signing the same student up twice: the second call is rejected and
      leaves the catalog as the first call made it. */
  lemma SignupTwice(c: Catalog, activityName: Name, email: Email)
    requires activityName in c
    ensures var c1 := Signup(c, activityName, email).0;
      Signup(c1, activityName, email) == (c1, Rejected(AlreadySignedUp))
  {
  }

  /** The outcome of a signup does not depend on the capacity of the
      activity: `maxParticipants` is never compared with the roster. */
  lemma SignupIgnoresCapacity(c: Catalog, activityName: Name, email: Email, capacity: int)
    requires activityName in c
    ensures var c' := c[activityName := c[activityName].(maxParticipants := capacity)];
      Signup(c', activityName, email).1 == Signup(c, activityName, email).1
  {
  }

  lemma {:induction false} RunKeepsDistinct(c: Catalog, reqs: seq<Request>)
    requires RostersDistinct(c)
    ensures RostersDistinct(Run(c, reqs))
    decreases |reqs|
  {
    if reqs != [] {
      SignupKeepsDistinct(c, reqs[0].activityName, reqs[0].email);
      RunKeepsDistinct(Signup(c, reqs[0].activityName, reqs[0].email).0, reqs[1..]);
    }
  }

  /** Every email on a roster after a run was there before or was requested
      for that activity. */
  lemma {:induction false} RunOnlyAddsRequested(c: Catalog, reqs: seq<Request>, n: Name, e: Email)
    requires n in c
    requires e in Run(c, reqs)[n].participants
    ensures e in c[n].participants || Request(n, e) in reqs
    decreases |reqs|
  {
    if reqs != [] {
      var c1 := Signup(c, reqs[0].activityName, reqs[0].email).0;
      RunOnlyAddsRequested(c1, reqs[1..], n, e);
      if e in c1[n].participants && e !in c[n].participants {
        assert Request(n, e) == reqs[0];
      } else if Request(n, e) in reqs[1..] {
        var k :| 0 <= k < |reqs| - 1 && reqs[1..][k] == Request(n, e);
        assert reqs[k + 1] == Request(n, e);
      }
    }
  }

  lemma InPrefix(e: Email, a: seq<Email>, b: seq<Email>)
    requires e in a && a <= b
    ensures e in b
  {
  }

  /** Every request of a run for an existing activity leaves its email on
      that activity's roster: the converse of RunOnlyAddsRequested. */
  lemma {:induction false} RunKeepsRequested(c: Catalog, reqs: seq<Request>, k: nat)
    requires k < |reqs|
    requires reqs[k].activityName in c
    ensures reqs[k].email in Run(c, reqs)[reqs[k].activityName].participants
    decreases |reqs|
  {
    var n, e := reqs[k].activityName, reqs[k].email;
    var c1 := Signup(c, reqs[0].activityName, reqs[0].email).0;
    assert Run(c, reqs) == Run(c1, reqs[1..]);
    if k == 0 {
      assert e in c1[n].participants;
      InPrefix(e, c1[n].participants, Run(c1, reqs[1..])[n].participants);
    } else {
      assert reqs[1..][k - 1] == reqs[k];
      RunKeepsRequested(c1, reqs[1..], k - 1);
    }
  }
}
