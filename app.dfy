/**
  The API's module-level state: one live activity table, created from the seed
  catalog at startup, read by the list endpoint and changed by signup.
 */
module App {

  import opened Registry
  import SeedCatalog

  class ActivityServer {
    var activities: Catalog

    /** The set of activity names is the one fixed at startup, and no roster
        holds an email twice. */
    ghost predicate Valid()
      reads this
    {
      activities.Keys == SeedCatalog.Seed.Keys && RostersDistinct(activities)
    }

    constructor ()
      ensures Valid()
      ensures activities == SeedCatalog.Seed
    {
      activities := SeedCatalog.Seed;
      SeedCatalog.SeedRostersDistinct();
    }

    /** GET /activities: the live table as it is, with no side effect. */
    method GetActivities() returns (r: Catalog)
      ensures r == activities
    {
      r := activities;
    }

    /** POST /activities/{activityName}/signup?email=... */
    method SignupForActivity(activityName: Name, email: Email) returns (r: Response)
      modifies this
      ensures old(Valid()) ==> Valid()
      ensures (activities, r) == Signup(old(activities), activityName, email)
    {
      ghost var before := activities;
      if activityName !in activities {
        return Rejected(ActivityNotFound);
      }
      var activity := activities[activityName];
      if email in activity.participants {
        return Rejected(AlreadySignedUp);
      }
      activities := activities[activityName := activity.(participants := activity.participants + [email])];
      r := Signed(Message(email, activityName));
      if RostersDistinct(before) {
        SignupKeepsDistinct(before, activityName, email);
      }
    }
  }

  /** A client session against a freshly started server: a new student signs
      up for "Soccer Team", the list shows them last on the roster, and the
      same signup again is rejected. */
  method SoccerTeamSession() returns (first: Response, roster: seq<Email>, second: Response)
    ensures first == Signed("Signed up newstudent@mergington.edu for Soccer Team")
    ensures roster == ["lucas@mergington.edu", "mia@mergington.edu", "newstudent@mergington.edu"]
    ensures second == Rejected(AlreadySignedUp)
  {
    var server := new ActivityServer();
    SeedCatalog.SoccerTeamScenario();
    first := server.SignupForActivity("Soccer Team", "newstudent@mergington.edu");
    var listed := server.GetActivities();
    roster := listed["Soccer Team"].participants;
    second := server.SignupForActivity("Soccer Team", "newstudent@mergington.edu");
  }
}
