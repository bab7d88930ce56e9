# Mergington High School activity registry

This project models the in-memory activity registry of the Mergington High
School API (`src/app.py`). The registry is a table from activity name to a
record that holds a description, a schedule, a capacity (`max_participants`)
and a roster of student emails. The API lists the table and signs students up.
Signup works in three steps:

- It looks the activity name up by exact key. An unknown name is rejected as
  "Activity not found".
- If the email is already on that activity's roster, it is rejected as
  "Student already signed up".
- Otherwise it appends the email to the end of the roster and confirms with
  `Signed up <email> for <activity>`.

The project has three modules:

- `Registry` (`registry.dfy`) holds the records, the errors and responses,
  and `Signup`, a function from one catalog to the next with the response.
  `Run` serves a sequence of signup requests. The lemmas cover one signup and
  a whole run: duplicate-freedom is kept, rosters only grow at the end,
  and the capacity plays no part.
- `SeedCatalog` (`seed.dfy`) is the table the API starts with, as the source
  writes it. In the source the "Chess Club" record holds six more records
  ("Tennis Club" through "Book Club") as extra keys. They are kept in the
  model as the `nested` field of that record. Only the nine top-level names are
  activities, so signing up for "Tennis Club" is not found.
- `App` (`app.dfy`) holds the module-level state as a class. Its one field,
  `activities`, is built from the seed. `GetActivities` returns it and
  `SignupForActivity` changes it, and that method is proved equal to
  `Registry.Signup`.

In three places the code differs from what the service is meant to do. The
model follows the code:

- There is no withdraw/unregister operation in the source, although such an
  operation is intended and the test suite exercises it. It is not modelled.
- The seed catalog is not a flat table of fifteen activities. Six of them
  are nested inside "Chess Club".
- Capacity is never checked. `SignupIgnoresCapacity` states that the outcome
  of a signup is the same whatever `maxParticipants` is.

## Model

| member | source | states |
|---|---|---|
| `Registry.Signup` | src/app.py:127-143 | An unknown name is rejected with ActivityNotFound and the catalog is unchanged. An email already on the roster is rejected with AlreadySignedUp and the catalog is unchanged. A rejection's detail text is "Activity not found" for an unknown name and "Student already signed up" for a repeated email. Otherwise the response is the confirmation message, the roster becomes the old roster with the email appended at the end, the record's description, schedule, capacity and nested records are unchanged, every other activity is unchanged, and the set of names is unchanged. |
| `Registry.SignupError.Detail` | src/app.py:132-139 | The detail text is "Activity not found" exactly for the not-found error and "Student already signed up" exactly for the duplicate error, so the text identifies the error. |
| `Registry.MessageMentions` | src/app.py:143 | The confirmation starts with "Signed up " and contains both the email and the activity name as substrings. |
| `Registry.SignupKeepsDistinct` | src/app.py:138-142 | If no roster holds a duplicate before a signup, none does after it. |
| `Registry.SignupTwice` | src/app.py:138-139 | A second signup of the same email for the same existing activity is rejected with AlreadySignedUp and leaves the catalog as the first call left it. |
| `Registry.SignupIgnoresCapacity` | src/app.py:127-143 | Changing an activity's `maxParticipants` to any value does not change the response of a signup for it, so capacity is not enforced. |
| `Registry.Run` | src/app.py:127-143 | Over any sequence of signups the set of names is unchanged, each record keeps its description, schedule, capacity and nested records, and each old roster is a prefix of the new one. |
| `Registry.RunKeepsDistinct` | src/app.py:138-142 | Duplicate-freedom of every roster holds after any sequence of signups. |
| `Registry.RunOnlyAddsRequested` | src/app.py:142 | After any sequence of signups, each email on a roster was there before or was requested for that very activity. |
| `Registry.RunKeepsRequested` | src/app.py:138-142 | After any sequence of signups, every request for an existing activity leaves its email on that activity's roster, whether it was appended then or was already there. With `RunOnlyAddsRequested` this describes the final rosters in both directions. |
| `SeedCatalog.SeedNames` | src/app.py:23-114 | The activities at startup are exactly the nine top-level names. |
| `SeedCatalog.SeedRostersDistinct` | src/app.py:23-114 | No roster of the seed catalog holds an email twice. |
| `SeedCatalog.ChessClubRecord` | src/app.py:24-65 | "Chess Club" has the roster michael, daniel, and it has six nested records, Tennis Club through Book Club. |
| `SeedCatalog.NestedNamesNotActivities` | src/app.py:24-65 | None of the names of the records nested in "Chess Club" is an activity name. |
| `SeedCatalog.TennisClubNotFound` | src/app.py:131-132 | Signing up for "Tennis Club", a record nested in "Chess Club", is rejected with ActivityNotFound and changes nothing. |
| `SeedCatalog.ExactNameLookup` | src/app.py:131-132 | Lookup is an exact key match: "Nonexistent Club", "soccer team" and "Soccer Team " (trailing space) are not activities. |
| `SeedCatalog.SoccerTeamRoster` | src/app.py:66-71 | "Soccer Team" starts with the roster lucas, mia. |
| `SeedCatalog.SoccerTeamMessage` | src/app.py:143 | The confirmation for newstudent@mergington.edu and "Soccer Team" is exactly "Signed up newstudent@mergington.edu for Soccer Team". |
| `SeedCatalog.SoccerTeamScenario` | tests/test_app.py:66-91 | From the seed, the new student's signup for "Soccer Team" returns that exact message and makes the roster lucas, mia, newstudent. The same signup again is rejected with AlreadySignedUp and leaves the catalog unchanged. |
| `App.ActivityServer.constructor` | src/app.py:23-114 | The live table starts as the seed catalog, and the object invariant holds: the names are the seed's names and no roster holds a duplicate. |
| `App.ActivityServer.GetActivities` | src/app.py:122-124 | Returns the live table as it is. The method has no `modifies` clause, so it has no side effect. |
| `App.ActivityServer.SignupForActivity` | src/app.py:127-143 | The new table and the response are exactly those of `Registry.Signup` on the old table, and the object invariant is preserved. |
| `App.SoccerTeamSession` | tests/test_app.py:66-98 | On a freshly started server the new student's signup returns the exact message, the listed roster ends with that student, and a repeated signup is rejected. |

## Left out

- The FastAPI application object, the `/static` mount and the redirect from `/` (src/app.py:14-20, 117-119) are framework and file-system plumbing.
- The HTTP status codes (404, 400) and JSON serialisation are not modelled. Errors are the `SignupError` datatype; their detail texts are given by `SignupError.Detail`.
- Withdraw/unregister is not modelled: src/app.py has no such handler.
- Concurrent requests on the shared table are not modelled: each call is one atomic step. The source has no locking, and the framework runs plain handlers in a thread pool. So the membership check (src/app.py:138) and the append (src/app.py:142) of two identical simultaneous signups can interleave, and the email is then added twice. `SignupKeepsDistinct`, `RunKeepsDistinct` and the invariant `ActivityServer.Valid()` hold only when requests are handled one at a time.
- App.ActivityServer.GetActivities returns the table as a value. In the source it returns the live dictionary, and later signups would show through that alias. The HTTP layer serialises it at once, so no caller sees the alias.
- App.ActivityServer.SignupForActivity reassigns the table entry with a record whose roster is one longer. In the source the roster list is appended to in place. The resulting table is the same.
- The nested records inside "Chess Club" are values. In the source they are mutable dictionaries, but no operation changes them.
- Email format and the content of descriptions and schedules are never inspected by the source. The seed keeps the literal texts as opaque strings.
- Python's arbitrary-precision `int` for `max_participants` is modelled as the unbounded `int`.
