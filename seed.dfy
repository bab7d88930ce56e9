/**
  The catalog the API starts with, and what signup does on it. The "Chess
  Club" record carries six further records as extra keys of its own; only the
  nine top-level names are activities.
 */
module SeedCatalog {

  import opened Registry

  function Record(description: string, schedule: string, maxParticipants: int,
                  participants: seq<Email>): Activity
  {
    Activity(description, schedule, maxParticipants, participants, map[])
  }

  /** The records nested inside "Chess Club". */
  const ChessClubExtras: map<Name, Activity> := map[
      "Tennis Club" := Record(
        "Practice tennis skills and participate in friendly matches",
        "Thursdays, 4:00 PM - 5:30 PM", 10,
        ["sophia@mergington.edu", "liam@mergington.edu"]),
      "Swim Team" := Record(
        "Train and compete in swimming events",
        "Mondays and Wednesdays, 3:30 PM - 5:00 PM", 15,
        ["oliver@mergington.edu", "mia@mergington.edu"]),
      "Photography Club" := Record(
        "Learn photography techniques and showcase your work",
        "Fridays, 4:00 PM - 5:30 PM", 12,
        ["lucas@mergington.edu", "ava@mergington.edu"]),
      "Music Ensemble" := Record(
        "Play instruments and perform in school concerts",
        "Tuesdays, 5:00 PM - 6:30 PM", 18,
        ["isabella@mergington.edu", "benjamin@mergington.edu"]),
      "Debate Club" := Record(
        "Develop public speaking and argumentation skills",
        "Wednesdays, 4:00 PM - 5:30 PM", 14,
        ["charlotte@mergington.edu", "noah@mergington.edu"]),
      "Book Club" := Record(
        "Read and discuss books from various genres",
        "Thursdays, 3:30 PM - 4:30 PM", 16,
        ["emma@mergington.edu", "elijah@mergington.edu"])
    ]

  /** The catalog the API starts with. */
  const Seed: Catalog := map[
      "Chess Club" := Activity(
        "Learn strategies and compete in chess tournaments",
        "Fridays, 3:30 PM - 5:00 PM", 12,
        ["michael@mergington.edu", "daniel@mergington.edu"],
        ChessClubExtras),
      "Soccer Team" := Record(
        "Join the school soccer team and compete in matches",
        "Wednesdays, 4:00 PM - 6:00 PM", 18,
        ["lucas@mergington.edu", "mia@mergington.edu"]),
      "Basketball Club" := Record(
        "Practice basketball skills and play friendly games",
        "Mondays, 5:00 PM - 6:30 PM", 15,
        ["liam@mergington.edu", "ava@mergington.edu"]),
      "Art Workshop" := Record(
        "Explore painting, drawing, and other visual arts",
        "Thursdays, 3:30 PM - 5:00 PM", 16,
        ["isabella@mergington.edu", "noah@mergington.edu"]),
      "Drama Club" := Record(
        "Act, direct, and participate in school theater productions",
        "Tuesdays, 4:00 PM - 5:30 PM", 20,
        ["charlotte@mergington.edu", "jackson@mergington.edu"]),
      "Math Olympiad" := Record(
        "Prepare for and compete in mathematics competitions",
        "Fridays, 2:00 PM - 3:30 PM", 10,
        ["amelia@mergington.edu", "benjamin@mergington.edu"]),
      "Science Club" := Record(
        "Conduct experiments and explore scientific concepts",
        "Wednesdays, 3:30 PM - 5:00 PM", 14,
        ["elijah@mergington.edu", "harper@mergington.edu"]),
      "Programming Class" := Record(
        "Learn programming fundamentals and build software projects",
        "Tuesdays and Thursdays, 3:30 PM - 4:30 PM", 20,
        ["emma@mergington.edu", "sophia@mergington.edu"]),
      "Gym Class" := Record(
        "Physical education and sports activities",
        "Mondays, Wednesdays, Fridays, 2:00 PM - 3:00 PM", 30,
        ["john@mergington.edu", "olivia@mergington.edu"])
    ]

  /** The activities are exactly the nine top-level names. */
  lemma SeedNames()
    ensures Seed.Keys == {
      "Chess Club", "Soccer Team", "Basketball Club", "Art Workshop", "Drama Club",
      "Math Olympiad", "Science Club", "Programming Class", "Gym Class"}
  {
  }

  lemma SeedRostersDistinct()
    ensures RostersDistinct(Seed)
  {
  }

  /** "Chess Club" has its own roster of two and six records nested in it. */
  lemma ChessClubRecord()
    ensures "Chess Club" in Seed
    ensures Seed["Chess Club"].participants == ["michael@mergington.edu", "daniel@mergington.edu"]
    ensures Seed["Chess Club"].nested.Keys == {
      "Tennis Club", "Swim Team", "Photography Club", "Music Ensemble", "Debate Club", "Book Club"}
  {
  }

  /** The names of the records nested in "Chess Club" are not activity
      names. */
  lemma NestedNamesNotActivities()
    ensures "Chess Club" in Seed
    ensures Seed["Chess Club"].nested.Keys !! Seed.Keys
  {
  }

  /** Signing up for a record nested in "Chess Club" is not found and
      changes nothing. */
  lemma TennisClubNotFound(email: Email)
    ensures Signup(Seed, "Tennis Club", email) == (Seed, Rejected(ActivityNotFound))
  {
  }

  /** Lookup is by exact key: an unknown name, and a known name in another
      case or with a trailing space, are not activities. */
  lemma ExactNameLookup()
    ensures "Nonexistent Club" !in Seed
    ensures "soccer team" !in Seed
    ensures "Soccer Team " !in Seed
  {
  }

  lemma SoccerTeamRoster()
    ensures "Soccer Team" in Seed
    ensures Seed["Soccer Team"].participants == ["lucas@mergington.edu", "mia@mergington.edu"]
  {
  }

  lemma SoccerTeamMessage()
    ensures Message("newstudent@mergington.edu", "Soccer Team")
      == "Signed up newstudent@mergington.edu for Soccer Team"
  {
  }

  /** Signing a new student up for "Soccer Team" appends them to the roster
      and confirms with the exact message; a second signup is rejected. */
  lemma SoccerTeamScenario()
    ensures var (c1, r1) := Signup(Seed, "Soccer Team", "newstudent@mergington.edu");
      && r1 == Signed("Signed up newstudent@mergington.edu for Soccer Team")
      && c1["Soccer Team"].participants ==
           ["lucas@mergington.edu", "mia@mergington.edu", "newstudent@mergington.edu"]
      && Signup(c1, "Soccer Team", "newstudent@mergington.edu") == (c1, Rejected(AlreadySignedUp))
  {
    SoccerTeamRoster();
    SoccerTeamMessage();
    var roster := Seed["Soccer Team"].participants;
    assert "newstudent@mergington.edu" !in roster;
    SignupTwice(Seed, "Soccer Team", "newstudent@mergington.edu");
  }
}
