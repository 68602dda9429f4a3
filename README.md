# Athlos in Dafny

Athlos is a gym management system: a Django REST backend and Next.js front ends. It serves four kinds of user:

- system administrators (`ADMIN_SISTEMA`);
- gym administrators (`ADMIN`), each attached to one gym (`Academia`);
- personal trainers (`PERSONAL`, with a `PersonalTrainer` profile);
- students (`ALUNO`, with an `Aluno` profile).

Trainers write workouts (`Treino`) for their students. A workout lists exercises of a shared catalogue (`Exercicio`) through workout items (`ItemTreino`).

This project models the core of that system and proves properties of the model:

- **Database.** The tables are one value (`Domain.Db`) together with their constraints:
  - unique columns;
  - references;
  - the one-profile-per-user keys;
  - the `(treino, exercicio)` pair.

  The writes the system performs are functions on that value (`Tables`), each proved to keep the constraints. A `Store.Database` object performs the same writes in place.
- **Profiles and usernames.** The post-save signal handlers give each user the profile of their role (`Signals`). `CustomUser.save` derives a free username (`Users`). `create_user` stores the email normalized, its domain lowercased (`Emails`), and the password hashed (`Domain.Password`).
- **Serializers.** Creating and updating trainers, students and workouts, including the item-replacing workout update (`Serializers`).
- **Forms.** The student and workout forms of the server-rendered pages (`Forms`).
- **Import.** The exercise import command (`Importer`).
- **Views.**
  - The role-scoped querysets of the REST viewsets (`Visibility`).
  - The four dashboards and four report views (`TrainerViews`, `StudentViews`, `GymViews`, `AdminViews`).
  - Their building blocks: period windows, monthly and weekday buckets, stable rankings, grouped counts and category palettes (`Periods`, `Buckets`, `Ranking`, `Queries`, `Palette`, `Selections`).
- **Front end.**
  - The API client's URL building (`ApiClient`).
  - The item editor of the "new workout" page (`ItemEditor`).
  - The computations the report and dashboard pages do on what the API returns: `AdminReportPage`, `StudentReportPage`, `StudentDashboard`, `TrainerReportPage`, `Grouping` and `Minutes`.
- **Column limits.** The column widths the models declare (`Limits`).

Inputs the system takes from its environment are parameters of the model:

- the clock (`now`);
- the calendar's month snapping (`snap`);
- the request's user and query parameters;
- the decoded JSON file;
- how a number is shown by the browser.

## Model

| member | source | states |
|---|---|---|
| Text.NatToStringInjective | projeto-pratico/usuarios/models.py:61 | distinct numbers have distinct decimal renderings, so every suffix gives a new candidate name |
| Text.ZeroPad | academias/signals.py:21 | the `06d` padding keeps the rendering as its suffix, fills only with zeros, and is exactly the wider of the rendering and the width |
| Text.Split | projeto-pratico/usuarios/models.py:56 | `split` on one character yields at least one piece and no piece contains the separator |
| Text.JoinSplit | projeto-pratico/usuarios/models.py:56 | joining the pieces of a split with the separator gives the original string |
| Text.SplitJoin | projeto-pratico/usuarios/models.py:56 | splitting a join of separator-free pieces gives back the same pieces |
| Text.Before | projeto-pratico/usuarios/models.py:56 | `split(sep)[0]` is a prefix without the separator, and the separator follows it unless it is the whole string |
| Text.Trim | frontend/src/app/dashboard/personal/relatorios/page.tsx:87 | `trim()` (and Python's `strip()`), each with its own blank set: nothing is left exactly for an all-blank text; otherwise the text between its leading and trailing blanks, with no blank at either end |
| Text.IntToString | projeto-pratico/frontend/src/app/dashboard/aluno/page.tsx:118 | `toString()` of an integer: the plain digits of a non-negative one, and "-" followed by the digits of its magnitude otherwise |
| Text.PyInt | core/api_views.py:485 | Python `int()` of a text, as the ORM applies it to the `aluno_id` filter: an all-blank text is refused |
| Text.PyIntRejects | core/api_views.py:485 | a text holding a character other than a digit, a sign, an underscore or a blank is refused |
| Text.PyIntReadsRendering | core/api_views.py:485 | `int()` reads back every integer's decimal rendering, negative ones included |
| Text.PyIntLeadingZeros | core/api_views.py:485 | zeros in front of the digits do not change the number read |
| Text.PyIntIgnoresBlanks | core/api_views.py:485 | blanks around the text do not change the number read |
| Text.TrimIgnoresBlanks | core/api_views.py:619-621 | blanks added around a text do not change its trimmed form |
| Text.StrLeTotal | treinos/forms.py:79 | the text order used by `order_by("nome")` compares any two names |
| Text.StrLeTransitive | treinos/forms.py:79 | the text order is transitive |
| Text.StrLeAntisymmetric | treinos/forms.py:79 | two names ordered both ways are equal |
| Limits.CrefLength | academias/signals.py:21 | the generated CREF has five characters of prefix plus the wider of the id's digits and six |
| Limits.GeneratedTrainerFits | projeto-pratico/academias/models.py:47 | a generated trainer profile fits its columns exactly when the user id is below 10^15 |
| Tables.DeleteWorkouts | projeto-pratico/treinos/models.py:80-84 | deleting workouts removes them and exactly their items; every other table is unchanged |
| Tables.DeleteWorkoutsKeepsValid | projeto-pratico/treinos/models.py:80-84 | the cascade to the items keeps every database constraint |
| Tables.DeleteStudent | projeto-pratico/treinos/models.py:44-48 | deleting a student removes the profile, the student's workouts and their items |
| Tables.DeleteStudentKeepsValid | projeto-pratico/treinos/models.py:44-48 | the student cascade keeps every database constraint |
| Tables.DeleteItemsOf | core/serializers.py:456 | `itens.all().delete()` removes the items of that workout and no other row |
| Tables.DeleteItemsOfKeepsValid | core/serializers.py:456 | removing a workout's items keeps every database constraint |
| Tables.DeleteTrainer | projeto-pratico/academias/models.py:68-76 | deleting a trainer keeps every student and workout, and nulls the references to that trainer |
| Tables.DeleteTrainerKeepsValid | projeto-pratico/treinos/models.py:51-57 | the SET_NULL of both references keeps every database constraint |
| Tables.DeleteExercise | projeto-pratico/treinos/models.py:87-91 | deleting an exercise removes the items that use it |
| Tables.DeleteExerciseKeepsValid | projeto-pratico/treinos/models.py:87-91 | the exercise cascade keeps every database constraint |
| Tables.DeleteGyms | projeto-pratico/usuarios/models.py:21-27 | deleting gyms clears the gym of their users and students and touches no other row |
| Tables.DeleteGymsKeepsValid | projeto-pratico/usuarios/models.py:21-27 | the gym SET_NULL keeps every database constraint |
| Tables.DeleteUser | projeto-pratico/academias/models.py:9-17 | deleting a user removes exactly that user, their two profiles, the gyms they are responsible for and their workouts as a student; the exercises stay |
| Tables.DeleteUserRows | projeto-pratico/academias/models.py:9-17 | every surviving row is unchanged except that the user is cleared as trainer and creator and the deleted gyms are cleared from users and students; the items that go are exactly those of the user's workouts |
| Tables.DeleteUserKeepsValid | projeto-pratico/academias/models.py:59-65 | the whole user cascade keeps every database constraint |
| Tables.InsertUser | projeto-pratico/usuarios/models.py:14 | a user INSERT gets a fresh id, and is refused exactly when the email or the username is taken (the gym reference is not checked, see Left out) |
| Tables.InsertUserKeepsValid | projeto-pratico/usuarios/models.py:14 | an accepted user INSERT keeps every database constraint |
| Tables.UpdateUser | projeto-pratico/usuarios/models.py:14 | a user UPDATE is refused exactly when another user holds the email or the username (the gym reference is not checked, see Left out) |
| Tables.UpdateUserKeepsValid | projeto-pratico/usuarios/models.py:14 | an accepted user UPDATE keeps every database constraint |
| Tables.InsertStudent | projeto-pratico/academias/models.py:59-65 | a student profile is keyed by its user and refused when that user already has one (its references are not checked, see Left out) |
| Tables.SaveStudent | projeto-pratico/academias/models.py:59-65 | saving a keyed student updates the row, or inserts it when none exists (its references are not checked, see Left out) |
| Tables.SaveStudentKeepsValid | projeto-pratico/academias/models.py:59-65 | saving a student profile keeps every database constraint |
| Tables.InsertTrainer | projeto-pratico/academias/models.py:39-47 | a trainer profile INSERT is refused when the user has one or the CREF is taken |
| Tables.SaveTrainer | projeto-pratico/academias/models.py:47 | saving a keyed trainer is refused exactly on a CREF clash |
| Tables.SaveTrainerKeepsValid | projeto-pratico/academias/models.py:47 | saving a trainer profile keeps every database constraint |
| Tables.InsertWorkout | projeto-pratico/treinos/models.py:39-61 | a workout INSERT gets a fresh id; its student and creator are not checked (see Left out) |
| Tables.InsertWorkoutKeepsValid | projeto-pratico/treinos/models.py:44-57 | a workout whose student and creator exist keeps every database constraint |
| Tables.UpdateWorkout | projeto-pratico/treinos/models.py:39-61 | a workout UPDATE rewrites that row only; its references are not checked (see Left out) |
| Tables.UpdateWorkoutKeepsValid | projeto-pratico/treinos/models.py:44-57 | an UPDATE with existing references keeps every database constraint |
| Tables.InsertItem | projeto-pratico/treinos/models.py:107-109 | an item INSERT is refused exactly when the workout already lists that exercise (its workout and exercise are not checked, see Left out) |
| Tables.InsertItemKeepsValid | projeto-pratico/treinos/models.py:80-91 | an accepted item keeps the references and the pair constraint |
| Tables.InsertExercise | projeto-pratico/treinos/models.py:12-21 | an exercise INSERT is refused on a name or slug clash |
| Tables.InsertExerciseKeepsValid | projeto-pratico/treinos/models.py:12-21 | an accepted exercise keeps names and slugs unique |
| Tables.UpdateExercise | projeto-pratico/treinos/models.py:12-21 | an exercise UPDATE is refused when another exercise holds the name or slug |
| Tables.UpdateExerciseKeepsValid | projeto-pratico/treinos/models.py:12-21 | an accepted exercise UPDATE keeps names and slugs unique |
| Tables.InsertGym | projeto-pratico/academias/models.py:18-22 | a gym INSERT is refused exactly when another gym holds the CNPJ; an accepted one gets a fresh id and the creation date of the insert |
| Tables.InsertGymKeepsValid | projeto-pratico/academias/models.py:19 | an accepted gym with an existing responsible user keeps every database constraint |
| Tables.InsertGymTwiceRefused | projeto-pratico/academias/models.py:19 | a second gym with the CNPJ of one just inserted is refused |
| Tables.UpdateGym | projeto-pratico/academias/models.py:18-22 | a gym UPDATE is refused exactly when another gym holds the CNPJ; the creation date stays |
| Tables.UpdateGymKeepsValid | projeto-pratico/academias/models.py:19 | an accepted gym UPDATE keeps every database constraint |
| Store.Database.constructor | projeto-pratico/treinos/models.py:6-113 | the object starts as the empty database |
| Store.Database.InsertUser | projeto-pratico/usuarios/models.py:14 | the in-place INSERT leaves the tables and the answer `Tables.InsertUser` gives |
| Store.Database.UpdateUser | projeto-pratico/usuarios/models.py:14 | the in-place UPDATE matches `Tables.UpdateUser` |
| Store.Database.InsertStudent | projeto-pratico/academias/models.py:59-65 | matches `Tables.InsertStudent` |
| Store.Database.SaveStudent | projeto-pratico/academias/models.py:59-65 | matches `Tables.SaveStudent` |
| Store.Database.InsertTrainer | projeto-pratico/academias/models.py:39-47 | matches `Tables.InsertTrainer` |
| Store.Database.SaveTrainer | projeto-pratico/academias/models.py:47 | matches `Tables.SaveTrainer` |
| Store.Database.InsertWorkout | projeto-pratico/treinos/models.py:39-61 | matches `Tables.InsertWorkout` |
| Store.Database.UpdateWorkout | projeto-pratico/treinos/models.py:39-61 | matches `Tables.UpdateWorkout` |
| Store.Database.InsertItem | projeto-pratico/treinos/models.py:107-109 | matches `Tables.InsertItem` |
| Store.Database.InsertExercise | projeto-pratico/treinos/models.py:12-21 | matches `Tables.InsertExercise` |
| Store.Database.UpdateExercise | projeto-pratico/treinos/models.py:12-21 | matches `Tables.UpdateExercise` |
| Store.Database.InsertGym | projeto-pratico/academias/forms.py:6-15 | the in-place gym INSERT leaves the tables and the answer `Tables.InsertGym` gives |
| Store.Database.UpdateGym | projeto-pratico/academias/forms.py:6-15 | matches `Tables.UpdateGym` |
| Store.Database.DeleteItemsOf | core/serializers.py:456 | matches `Tables.DeleteItemsOf` |
| Store.Database.DeleteStudent | projeto-pratico/treinos/models.py:44-48 | matches `Tables.DeleteStudent`: the cascade in place |
| Store.Database.DeleteTrainer | projeto-pratico/academias/models.py:68-76 | matches `Tables.DeleteTrainer` |
| Store.Database.DeleteExercise | projeto-pratico/treinos/models.py:87-91 | matches `Tables.DeleteExercise` |
| Store.Database.DeleteUser | projeto-pratico/academias/models.py:9-17 | matches `Tables.DeleteUser` |
| Signals.DefaultCref | academias/signals.py:21 | the default CREF is "CREF-" followed by the id padded to six digits |
| Signals.DefaultCrefInjective | academias/signals.py:21 | two users never get the same generated CREF |
| Signals.GetOrCreateStudent | academias/signals.py:15 | afterwards the user has a student profile, and an existing one is kept |
| Signals.GetOrCreateTrainer | academias/signals.py:18-24 | an existing trainer profile is kept; a new one gets the generated CREF and "A definir"; the insert fails only when that CREF is held |
| Signals.DropStudent | academias/signals.py:50-53 | the student profile is gone afterwards, whether or not it existed |
| Signals.DropTrainer | academias/signals.py:36-39 | the trainer profile is gone afterwards, whether or not it existed |
| Signals.PostSaveMatchesRole | academias/signals.py:13-63 | after a successful post-save, the user has a student profile exactly when ALUNO and a trainer profile exactly when PERSONAL |
| Signals.PostSaveTouchesOnlyUser | academias/signals.py:33-63 | the handlers add or remove only the saved user's profiles, and no user row changes |
| Signals.PostSaveKeepsRolesMatched | academias/signals.py:33-63 | if every other user's profiles matched their role before, all users match afterwards |
| Signals.ResaveIsNoOp | academias/signals.py:33-63 | re-saving without a role change changes nothing once the profiles match |
| Signals.OnUpdateIdempotent | academias/signals.py:28-63 | running the update handler twice equals running it once |
| Signals.NewTrainerGetsDefaults | academias/signals.py:17-24 | a new PERSONAL whose CREF is free gets the generated CREF and the default speciality |
| Signals.PostSaveKeepsValid | academias/signals.py:7-63 | the handlers keep every database constraint |
| Signals.StudentSaveKeepsValid | academias/signals.py:34-39 | the ALUNO branch keeps every database constraint |
| Signals.TrainerSaveKeepsValid | academias/signals.py:41-53 | the PERSONAL branch keeps every database constraint |
| Signals.OtherSaveKeepsValid | academias/signals.py:55-63 | the admin branch keeps every database constraint |
| Signals.CreateProfile | academias/signals.py:8-24 | the in-place creation handler matches its functional model |
| Signals.UpdateProfile | academias/signals.py:28-63 | the in-place update handler matches its functional model |
| Signals.OnPostSave | academias/signals.py:7-63 | both receivers run in order, each with its own reading of `created` |
| Users.LocalPart | projeto-pratico/usuarios/models.py:56 | the local part is the email's text before the first "@" |
| Users.CandidateInjective | projeto-pratico/usuarios/models.py:61 | the suffix loop never tries the same name twice |
| Users.CandidateSetSize | projeto-pratico/usuarios/models.py:58-62 | the first n candidates are n distinct names |
| Users.HeldCandidatesBound | projeto-pratico/usuarios/models.py:60-62 | at most as many candidates in a row can be held as there are taken names |
| Users.FreeUsername | projeto-pratico/usuarios/models.py:57-62 | the loop returns a name nobody holds: the base when it is free, otherwise the first free suffixed candidate |
| Users.FillUsername | projeto-pratico/usuarios/models.py:55-62 | a given username is kept; an empty one is replaced by a free name derived from the email |
| Users.DerivedNameNeverClashes | projeto-pratico/usuarios/models.py:55-63 | a derived username is held by nobody before the write, so only the email can make the INSERT fail |
| Emails.NormalizeEmail | core/serializers.py:135-144 | `normalize_email`, which `create_user` applies: an email without '@' is kept as given, one with '@' keeps an '@' |
| Emails.NormalizeEmailOf | core/serializers.py:135-144 | an email with no blank at either end keeps its local part, up to the last '@', and has its domain lowered |
| Emails.NormalizeEmailIdempotent | core/serializers.py:135-144 | normalizing a normalized email changes nothing |
| Emails.DomainCaseNormalizesAlike | core/serializers.py:135-144 | two emails whose domains differ only in letter case normalize to the same text, the one with the domain lowered |
| Emails.LowerDomainExample | core/serializers.py:135-144 | "X.com" and "x.com" lower to the same domain "x.com" |
| Emails.LastIndex | core/serializers.py:135-144 | the cut of `rsplit("@", 1)`: the position of the last '@', with none after it, or none at all |
| Emails.LastIndexAfter | core/serializers.py:135-144 | in name + "@" + domain with no '@' in the domain, the cut falls right after the name |
| Emails.AsciiLower | core/serializers.py:135-144 | `str.lower()` on ASCII letters: the same length, each character lowered in place |
| Emails.AsciiLowerKeeps | core/serializers.py:135-144 | lowering neither adds nor removes a character that is not a letter, so the lowered domain still has no '@' |
| Users.RegisterGivesProfile | projeto-pratico/usuarios/models.py:53-63 | a registered user is written with its username, and their profile follows their role |
| Users.RegisterWritesRow | projeto-pratico/usuarios/models.py:63 | the written row is the one given; an ALUNO or PERSONAL also has their profile |
| Users.RegisterKeepsValid | projeto-pratico/usuarios/models.py:53-63 | registration keeps every database constraint |
| Users.ResaveFollowsRole | projeto-pratico/usuarios/models.py:53-63 | after a successful re-save the row holds the saved values and the profiles follow the new role |
| Users.ResaveKeepsValid | projeto-pratico/usuarios/models.py:53-63 | a re-save keeps every database constraint |
| Users.SaveNew | projeto-pratico/usuarios/models.py:53-63 | saving a new user plus the creation handler, in place, matches the registration function |
| Users.SaveExisting | projeto-pratico/usuarios/models.py:53-63 | saving an existing user plus the update handler, in place, matches the re-save function |
| Visibility.VisibleGyms | core/api_views.py:76-91 | the gyms a role may see are existing gyms |
| Visibility.VisibleTrainers | core/api_views.py:105-115 | the trainers a role may see are existing trainer profiles |
| Visibility.VisibleStudents | core/api_views.py:131-151 | the students a role may see are existing student profiles |
| Visibility.VisibleWorkouts | core/api_views.py:197-221 | the workouts a role may see are existing workouts |
| Visibility.WorkoutsFollowStudents | core/api_views.py:197-221 | for every role but PERSONAL, the visible workouts are exactly those of the visible students |
| Visibility.TrainerGymsAreStudentGyms | core/api_views.py:81-85 | a trainer sees a gym exactly when one of their visible students belongs to it |
| Visibility.GymlessAdminSeesNothing | core/api_views.py:86-91 | an ADMIN without a gym gets four empty querysets |
| Visibility.StudentSeesOnlySelf | core/api_views.py:147-149 | a student sees only their own profile and no gym or trainer |
| Visibility.GymAdminSeesOwnGym | core/api_views.py:86-89 | an ADMIN with a gym sees exactly that gym and exactly the trainers, students and workouts that belong to it |
| Visibility.SystemAdminSeesAll | core/api_views.py:79-80 | ADMIN_SISTEMA sees every gym, trainer, student and workout |
| Visibility.TrainerScope | core/api_views.py:136-142 | a PERSONAL sees exactly the students they are responsible for and the workouts they created; without a profile none of those and no gym; never a trainer |
| Visibility.TrainerGate | core/api_views.py:232-243 | refusal exactly for a non-PERSONAL (403) or a PERSONAL without a profile (404) |
| Visibility.StudentGate | core/api_views.py:300-311 | refusal exactly for a non-ALUNO (403) or an ALUNO without a profile (404) |
| Visibility.SystemGate | core/api_views.py:372-375 | only ADMIN_SISTEMA passes |
| Visibility.GymScope | core/api_views.py:338-351 | refused (403) exactly for users who are not one of the two admin roles; passing, the scope is the ADMIN's gym, or none |
| Visibility.GatesRefuseOtherRoles | core/api_views.py:232-243 | a view answers with data only when its gate passed |
| Visibility.ScopedStudents | core/api_views.py:343-351 | the gym views' students are students, and all of them without a scope |
| Visibility.ScopedTrainers | core/api_views.py:343-351 | the gym views' trainers are trainers, and all of them without a scope |
| Visibility.ScopedWorkouts | core/api_views.py:343-351 | the gym views' workouts are workouts, and all of them without a scope |
| Visibility.GymScopeAgreesWithViewsets | core/api_views.py:343-351 | the gym views agree with the viewsets for a system admin and for an ADMIN with a gym |
| Visibility.GymlessAdminSeesEverythingInReports | core/api_views.py:825-833 | an ADMIN without a gym sees the whole system in the gym views, although the viewsets show them nothing |
| Periods.LookbackDays | core/api_views.py:469-476 | "semana", "trimestre" and "ano" look back 7, 90 and 365 days; anything else (or nothing) 30 |
| Periods.WindowStart | core/api_views.py:469-476 | the window starts the look-back before now |
| Periods.WindowDays | core/api_views.py:611 | the whole days between the window start and now are exactly the look-back |
| Periods.PreviousWindow | core/api_views.py:489-493 | the comparison window is the 30 days before the window start, whatever the period |
| Periods.AtLeastOne | core/api_views.py:495 | `max(n, 1)` is positive and equals n from 1 on |
| Periods.Variation | core/api_views.py:494-496 | the variation is zero without change, positive for a rise, negative for a fall |
| Periods.Percentage | core/api_views.py:980-982 | a part of a whole is a percentage in [0, 100] |
| Periods.PerDay | core/api_views.py:923-924 | a per-day average is non-negative and at most the count |
| Periods.Frequency | core/api_views.py:611-615 | the weekly frequency lies in [0, 100]; below the cap it is the workouts per week as a percentage of five; no workouts give 0 |
| Periods.Weeks | core/api_views.py:612 | the number of weeks divided by is at least one |
| Periods.AverageBounds | core/api_views.py:634-636 | the average of scores in [0, 100] lies in [0, 100], and is 0 for no scores |
| Periods.FrequencyVariation | core/api_views.py:637-638 | for a non-negative rate the simulated variation lies in [0, 5], and is 5 from a rate of 5 on |
| Periods.WeekDay | core/api_views.py:578 | Django's `week_day` of a timestamp is in 1..7 |
| Periods.WeekDayNext | core/api_views.py:578 | the next day has the next week day, Saturday wrapping to Sunday |
| Periods.LabelDay | core/api_views.py:578 | the week day each label counts is in 1..7 |
| Periods.LabelOf | core/api_views.py:574-578 | the label that counts a given week day |
| Periods.LabelDayBijective | core/api_views.py:574-578 | the seven labels count the seven week days once each, Seg being Monday |
| Buckets.CountSplit | core/api_views.py:507-511 | adjacent windows count each row of their union once |
| Buckets.CountBeforeMonotone | core/api_views.py:513-515 | a later bound counts at least as many rows |
| Buckets.MonthBounds | core/api_views.py:500-505 | the month loop yields one bucket per month, oldest first, the last ending at the given bound |
| Buckets.MonthBoundsTile | core/api_views.py:500-505 | with a month snap such as `replace(day=1)` and a last bound not before now, the buckets tile the span without gaps or overlaps |
| Buckets.ReplaceDayOneIsMonthSnap | core/api_views.py:501-503 | `replace(day=1)`, the first day of the time's month at the same time of day, is a month snap for any calendar whose first-of-month day never comes after the day and never goes back |
| Buckets.TilesTotal | core/api_views.py:500-511 | over tiling buckets the counts add up to the count of the whole span |
| Buckets.TilesOrdered | core/api_views.py:500-505 | an earlier bucket starts no later than a later one ends |
| Buckets.MonthCountsTotal | core/api_views.py:500-523 | one count per month, oldest first, adding up to the whole span under a month snap such as `replace(day=1)` |
| Buckets.MonthSeries | core/api_views.py:500-523 | the month loop in place yields the month counts |
| Buckets.WeekdayTotal | core/api_views.py:574-579 | the seven weekday counts add up to all the rows |
| Buckets.WeekdaySeries | core/api_views.py:574-579 | the weekday loop yields seven counts, Monday first, each the rows of its day |
| Ranking.SortDesc | core/api_views.py:631 | `sort(reverse=True)` returns a permutation of its input |
| Ranking.SortDescMembers | core/api_views.py:631 | every sorted row comes from the input |
| Ranking.SortDescOrdered | core/api_views.py:631 | the sorted rows are in descending key order |
| Ranking.SortDescStable | core/api_views.py:631 | rows with equal keys keep their input order |
| Ranking.Take | core/api_views.py:939 | `[:n]` keeps the first min(n, length) rows |
| Ranking.TopRows | core/api_views.py:939 | the top n hold at most n rows in descending order, and no row left out ranks above a kept one |
| Ranking.TopMembers | core/api_views.py:1119 | the top rows come from the input, and a row is left out only when n were kept, ranking no higher than the last |
| Queries.Rows | core/api_views.py:602 | a queryset lists each of its keys once, and no other |
| Queries.Distinct | core/api_views.py:705-708 | `.distinct()` lists each value present once, and no other |
| Queries.OccurrencesPositive | core/api_views.py:559 | a value that occurs is counted at least once |
| Queries.TallyRows | core/api_views.py:554-561 | a grouped count has one row per value with its count, largest first, totals adding up to the rows, ties in first-row order |
| Queries.TallyTies | core/api_views.py:560 | equal totals keep the order of their values' first rows |
| Queries.TopTallyRanked | core/api_views.py:582-588 | the first n groups are at most n distinct values, largest first |
| Queries.TopTallyCounts | core/api_views.py:582-588 | each of the first n groups is a value of the column with its number of rows |
| Queries.TopTallyCutoff | core/api_views.py:1062-1065 | a value left out is counted no more often than the last listed, and only when n were listed |
| Palette.CategoryName | core/api_views.py:567 | `category or "Outros"`: a given category is kept; a null or empty one reads "Outros" |
| Palette.Coloured | core/api_views.py:870-878 | the first six categories in rank order with their totals, the i-th coloured with the i-th colour |
| Palette.ColourLoop | core/api_views.py:563-571 | the trainer report's loop yields the same slices as the gym report's comprehension |
| Palette.DistinctColours | core/api_views.py:569 | no two slices share a colour |
| Palette.CoresDistinct | core/api_views.py:553 | the six colours are six different strings |
| Selections.Since | core/api_views.py:701 | `data_criacao__gte` keeps only workouts created from the start on |
| Selections.ForStudentParam | core/api_views.py:484-485 | the `aluno_id` filter only narrows; it changes nothing for an absent, empty or "todos" parameter, and fails exactly when the parameter narrows and `int()` refuses it |
| Selections.ReadStudentParam | core/api_views.py:484-485 | every student for an absent, empty or "todos" parameter; otherwise the number `int()` reads, or unreadable exactly when `int()` refuses the text |
| Selections.ForStudent | core/api_views.py:485 | narrowing to a student id keeps exactly that student's workouts, and a negative id keeps none |
| Selections.ForStudentParamSelects | core/api_views.py:484-485 | any text `int()` reads as a student's id keeps exactly that student's workouts |
| Selections.ForStudentParamWritten | core/api_views.py:484-485 | the id written with zeros in front and blanks around it selects the same workouts as the plain id |
| Selections.ForStudentParamRejects | core/api_views.py:484-485 | a narrowing parameter with a character `int()` never accepts makes the query fail |
| Selections.Categories | core/api_views.py:558 | `.values("exercicio__category")` gives each item's exercise category, row by row |
| Selections.ExerciseNames | core/api_views.py:269 | `.values("exercicio__nome")` gives each item's exercise name, row by row |
| Selections.NamesAndCategories | core/api_views.py:586 | the (name, category) pair of each item, row by row |
| Selections.DisplayName | core/api_views.py:620-621 | the email when the names are blank for Python's `strip()`; otherwise the full name between its leading and trailing blanks, non-empty with no blank at either end |
| TrainerViews.Latest | core/api_views.py:608 | the latest time is one of the times and no time is later |
| TrainerViews.StatOf | core/api_views.py:602-628 | a student's row: their id and display name, the count of their workouts in the window, the frequency of that count, and a last workout that is absent exactly when the count is zero |
| TrainerViews.LastCreated | core/api_views.py:608 | the latest creation time of some workouts is absent exactly when there are none |
| TrainerViews.StatOfLatest | core/api_views.py:603-608 | a row's last workout lies in the window, is the creation time of one of the student's workouts there, and none of them is later |
| TrainerViews.Stats | core/api_views.py:601-628 | the unsorted table has one row per student, in queryset order |
| TrainerViews.StatsLoop | core/api_views.py:601-628 | the loop builds exactly that table |
| TrainerViews.AverageFrequencyBounds | core/api_views.py:633-638 | the average frequency lies in [0, 100] and its variation in [0, 5] |
| TrainerViews.TrainerMonths | core/api_views.py:499-523 | the month loop in place yields the six (workouts, students) pairs |
| TrainerViews.TrainerMonthsFacts | core/api_views.py:500-523 | six months, each workout count the month series of creation times; under a month snap such as `replace(day=1)` the running student count never decreases |
| TrainerViews.DashboardPersonalOf | core/api_views.py:229-289 | refused exactly when the trainer gate refuses, with the gate's error |
| TrainerViews.DashboardPersonal | core/api_views.py:229-289 | the view, loop included, answers what the functional model does |
| TrainerViews.DashboardPersonalFacts | core/api_views.py:254-286 | activity rate in [0, 100]; the trainer's visible students counted; six months adding up under a month snap such as `replace(day=1)`; at most five top exercises, most used first; at most five recent students, newest first |
| TrainerViews.WindowItems | core/api_views.py:554-557 | every row is an existing item whose exercise exists |
| TrainerViews.RelatorioPersonalOf | core/api_views.py:447-663 | the gate's error when the trainer gate refuses; past the gate, a server error exactly when `int()` refuses a narrowing `aluno_id`; the report otherwise |
| TrainerViews.RelatorioPersonal | core/api_views.py:447-663 | the view, loops included, answers what the functional model does |
| TrainerViews.RelatorioPersonalStudents | core/api_views.py:600-638 | the table holds exactly the rows of the trainer's students, most workouts first; average frequency in [0, 100]; variation in [0, 5] |
| TrainerViews.RelatorioPersonalCharts | core/api_views.py:552-598 | the weekday chart adds up to the counted workouts; six months; at most six categories in distinct colours; at most ten exercises |
| GymViews.DashboardAcademiaOf | core/api_views.py:335-361 | refused (403) exactly for users who are not one of the two admin roles |
| GymViews.GymDashboardFacts | core/api_views.py:343-359 | the listed trainers are min(5, count) trainers in scope, in ascending id order; for an ADMIN they all belong to their gym |
| GymViews.Activities | core/api_views.py:906-918 | one activity row per trainer, in queryset order |
| GymViews.ActivityLoop | core/api_views.py:906-918 | the loop builds exactly those rows |
| GymViews.WorkoutNames | core/api_views.py:855 | the name of each workout, row by row |
| GymViews.GymMonths | core/api_views.py:880-903 | the month loop in place yields the growth series |
| GymViews.GymMonthsTotals | core/api_views.py:880-903 | each growth column is a month series, so new students and new workouts each add up to the six-month span under a month snap such as `replace(day=1)` |
| GymViews.RelatorioAcademiaOf | core/api_views.py:816-942 | refused (403) exactly for users who are not one of the two admin roles |
| GymViews.RelatorioAcademia | core/api_views.py:816-942 | the view, loops included, answers what the functional model does |
| GymViews.TopTrainersRows | core/api_views.py:920-939 | at most ten rows, most workouts first, each a trainer in scope with the workouts it created and the students it is responsible for |
| GymViews.ActivityRow | core/api_views.py:907-918 | each unsorted row is the activity of a trainer in scope |
| GymViews.TopTrainersCutoff | core/api_views.py:920 | no trainer left out created more workouts than the last one listed |
| GymViews.TrainerHasRow | core/api_views.py:907 | every trainer in scope has a row |
| GymViews.GymReportCounts | core/api_views.py:850-924 | the window's workouts are among those counted, and the daily average divides them by the window's whole days |
| GymViews.GymReportRankings | core/api_views.py:853-878 | at most ten workout names, each with how many workouts carry it, most first; at most six categories in distinct colours |
| AdminViews.UsersOfType | core/api_views.py:1083 | the users of a role are existing users |
| AdminViews.ActiveUsers | core/api_views.py:979 | the active users are existing users |
| AdminViews.GymRows | core/api_views.py:1041-1057 | one row per gym, in queryset order |
| AdminViews.GymRowsLoop | core/api_views.py:1041-1057 | the loop builds exactly those rows |
| AdminViews.GymRowIn | core/api_views.py:1042-1057 | each unsorted row is a gym's row |
| AdminViews.GymHasRow | core/api_views.py:1042 | every gym has its row |
| AdminViews.TopGymsRows | core/api_views.py:1059 | at most n rows, most students first, each a gym with its students, its trainers and its students' workouts |
| AdminViews.TopGymsCutoff | core/api_views.py:1059 | no gym left out has more students than the last one listed |
| AdminViews.UserGrowthLoop | core/api_views.py:386-404 | the dashboard's growth loop yields the growth series |
| AdminViews.SystemGrowthLoop | core/api_views.py:990-1021 | the report's growth loop yields the growth series with the gym column |
| AdminViews.UserGrowthColumns | core/api_views.py:387-404 | each column is the month series of its rows |
| AdminViews.SystemGrowthColumns | core/api_views.py:991-1021 | each of the three columns is the month series of its rows |
| AdminViews.DashboardAdminOf | core/api_views.py:369-434 | refused (403) exactly for users who are not ADMIN_SISTEMA |
| AdminViews.DashboardAdmin | core/api_views.py:369-434 | the view, loops included, answers what the functional model does |
| AdminViews.SystemDashboardFacts | core/api_views.py:384-421 | six months in both series; the workout volume adds up under a month snap such as `replace(day=1)`; at most five gyms, most students first |
| AdminViews.ExerciseUses | core/api_views.py:1068-1075 | each popular row carries its pair's name, its category or "Outros", and its count |
| AdminViews.Distribution | core/api_views.py:1078-1091 | the distribution has four rows |
| AdminViews.RelatorioAdminOf | core/api_views.py:950-1125 | refused (403) exactly for users who are not ADMIN_SISTEMA; corrected: the gym growth column is the count of new gyms, not the constant 0 of the code as written (see Findings) |
| AdminViews.RelatorioAdmin | core/api_views.py:950-1125 | the view, loops included, answers what the functional model does; corrected: its gym growth column counts the gyms created each month, where the code as written always gives 0 (see Findings) |
| AdminViews.SystemReportRates | core/api_views.py:979-987 | the active-user rate is a percentage; the window's workouts are among all workouts; the daily figure divides them by the window's days |
| AdminViews.SystemReportSeries | core/api_views.py:989-1038 | twelve months; every growth column, gyms included, is the month series of its rows; the volume adds up under a month snap such as `replace(day=1)` |
| AdminViews.PopularExercisesFacts | core/api_views.py:1061-1075 | at most ten (exercise, category) pairs, most used first, each with its non-zero number of items, a missing category read as "Outros" |
| AdminViews.ProfilesAreRoles | core/api_views.py:1079-1080 | with profiles matching roles, the student and trainer profiles are the users of those roles |
| AdminViews.RolesPartitionUsers | core/api_views.py:1078-1091 | every user has exactly one of the four roles |
| AdminViews.DistributionCoversUsers | core/api_views.py:1078-1091 | with profiles matching roles, the four rows count every user exactly once |
| AdminViews.GymGrowthAsWrittenIsZero | core/api_views.py:1006-1012 | as written, the gym column is zero in every month |
| AdminViews.GymGrowthDiffers | core/api_views.py:1006-1012 | for a gym created this month, the corrected column counts it and the written one shows zero |
| StudentViews.NewestMembers | core/api_views.py:323 | the newest n workouts are min(n, count) workouts of the set |
| StudentViews.NewestOrder | core/api_views.py:323 | the newest workouts come newest first |
| StudentViews.NewestCutoff | core/api_views.py:323 | no workout left out is newer than the last listed, and one is left out only when n are listed |
| StudentViews.DashboardAlunoOf | core/api_views.py:297-327 | refused exactly when the student gate refuses |
| StudentViews.DashboardAlunoFacts | core/api_views.py:313-325 | counts of the student's workouts and active ones, a goal of five, and five of the workouts, or all when fewer |
| StudentViews.DashboardAlunoRecent | core/api_views.py:323 | no workout left out is newer than the fifth listed |
| StudentViews.TrackedExercises | core/api_views.py:705-708 | the tracked exercises are existing exercises |
| StudentViews.LoadItems | core/api_views.py:712-717 | the items read for one exercise are existing items |
| StudentViews.LoadRows | core/api_views.py:718 | every row of the ordered series is one of the student's items of that exercise in the window |
| StudentViews.Points | core/api_views.py:725-731 | one point per item row, in order |
| StudentViews.EvolutionLoop | core/api_views.py:711-733 | the loop yields one series per tracked exercise |
| StudentViews.TrackedExercisesFacts | core/api_views.py:705-708 | at most five exercises, none twice, each one the student has used; one is left out only when five are tracked |
| StudentViews.SeriesPoints | core/api_views.py:712-731 | each series lists every item of its exercise in the window once, dated by its workout, with its load or 0 |
| StudentViews.SeriesOrder | core/api_views.py:718 | a series runs from the oldest workout to the newest |
| StudentViews.CategorySeries | core/api_views.py:740-744 | one (category, series) entry per item row |
| StudentViews.ProgressRows | core/api_views.py:750-759 | one row per grouped category, with its display name and its count |
| StudentViews.ProgressRowsFacts | core/api_views.py:736-759 | categories most items first, each with a positive count, the counts adding up to the rows |
| StudentViews.CategoryProgressTotal | core/api_views.py:736-759 | the report's category counts add up to all the window's items |
| StudentViews.WorkoutCategory | core/api_views.py:770 | `tipo or "Geral"`: never empty |
| StudentViews.Details | core/api_views.py:773-781 | one detail line per item row, in order |
| StudentViews.HistoryRows | core/api_views.py:763 | at most twenty workouts, each one of the student's in the window |
| StudentViews.HistoryLoop | core/api_views.py:763-783 | the loop yields one entry per listed workout |
| StudentViews.HistoryOrder | core/api_views.py:763 | the history lists its workouts newest first |
| StudentViews.HistoryCutoff | core/api_views.py:763 | a workout of the window is left out only when twenty newer or equally new ones are listed |
| StudentViews.HistoryEntries | core/api_views.py:763-783 | at most twenty entries, each a workout of the student in the window |
| StudentViews.HistoryDetails | core/api_views.py:764-781 | each entry counts its items, details the first five (or all), and has a category |
| StudentViews.RelatorioAlunoOf | core/api_views.py:671-698 | refused exactly when the student gate refuses |
| StudentViews.RelatorioAluno | core/api_views.py:671-808 | the view, loops included, answers what the functional model does |
| StudentViews.StudentReportCounts | core/api_views.py:785-795 | active and window workouts are among the student's workouts; the time estimate is three minutes per item; at most five series and twenty history entries |
| Serializers.Age | core/serializers.py:212-225 | no age without a birth date; otherwise the number of birthdays reached by today |
| Serializers.AgeIsUnique | core/serializers.py:212-225 | exactly one number of years has its birthday reached and the next not |
| Serializers.TotalPersonaisCountsTrainers | core/serializers.py:63-64 | with profiles matching roles, the gym's trainer count equals what its ADMIN sees in the trainer viewset |
| Serializers.MissingKey | core/serializers.py:129-130 | `email` is popped before `password`: no error exactly when both are present, and a missing email is the error reported first |
| Serializers.RegisterAs | core/serializers.py:135-144 | `create_user` writes the user (username the email as given, email column normalized, password hashed), and the post-save handler gives it the profile of its role |
| Serializers.NormalizedEmailClashRefused | core/serializers.py:135-144 | a payload whose normalized email a user already holds is refused, whatever the role |
| Serializers.DomainCaseVariantRefused | core/serializers.py:127-146 | a trainer whose email differs from a held one only in the case of the domain ("ana@X.com" once "ana@x.com" is registered) is refused with an integrity error |
| Serializers.CreateTrainerAsWrittenFails | core/serializers.py:145 | as written, the trainer create is always refused; the user and the default profile stay, and the supplied CREF is lost |
| Serializers.CreateTrainerGivesProfile | core/serializers.py:127-146 | corrected: a new PERSONAL whose username is their email as given, whose email column holds the normalized email and whose password is the hash of the one supplied, with the supplied profile; it fails only on a missing key, a refused user or a held CREF |
| Serializers.CreateStudentAsWrittenFails | core/serializers.py:295 | as written, the student create is always refused, because the handler already made the profile |
| Serializers.CreateStudentGivesProfile | core/serializers.py:277-296 | corrected: a new ALUNO named by their email, with the normalized email, the hashed password and the supplied profile; only the user row can be refused |
| Serializers.CreateTrainer | core/serializers.py:127-146 | the corrected create in place matches its functional model |
| Serializers.CreateStudent | core/serializers.py:277-296 | the corrected create in place matches its functional model |
| Serializers.Renamed | core/serializers.py:150-162 | only the supplied names are set on the user |
| Serializers.PatchTrainer | core/serializers.py:166-167 | each supplied profile field replaces the old one; the others are kept |
| Serializers.PatchStudent | core/serializers.py:316-317 | each supplied profile field replaces the old one; the others are kept |
| Serializers.SaveNames | core/serializers.py:160-163 | without a supplied name the user is not saved and nothing changes |
| Serializers.SaveNamesKeepsCredentials | core/serializers.py:150-163 | an update never changes the email or the password, sets exactly the supplied names, and leaves the users alone when none is supplied |
| Serializers.UpdateTrainerFacts | core/serializers.py:148-170 | the profile holds the patched fields, the user keeps email and password, and the update is refused only for a held CREF or a refused user row |
| Serializers.UpdateStudentFacts | core/serializers.py:298-320 | the profile holds the patched fields, and the user keeps email and password |
| Serializers.UpdateTrainer | core/serializers.py:148-170 | the update in place matches its functional model |
| Serializers.UpdateStudent | core/serializers.py:298-320 | the update in place matches its functional model |
| Serializers.ExercisesOf | core/serializers.py:442 | covers the exercise of every item the workout already has |
| Serializers.PairTakenIff | core/serializers.py:442 | an item INSERT is refused exactly when the workout already lists its exercise |
| Serializers.InsertRows | core/serializers.py:441-442 | one INSERT per entry, in order, until one is refused; keys only grow and every earlier row stays |
| Serializers.InsertRowsPassIff | core/serializers.py:441-442 | all inserts go through exactly when no entry repeats an exercise of the workout |
| Serializers.InsertRowsPlaces | core/serializers.py:441-442 | successful inserts add one row per entry, in order, under fresh keys |
| Serializers.InsertItemsIntoEmpty | core/serializers.py:441-442 | into an empty workout, the loop succeeds exactly when no exercise repeats, leaving exactly the entries; earlier rows are kept |
| Serializers.InsertRowsKeepRefs | core/serializers.py:441-442 | inserted rows keep the item constraints when the workout and exercises exist |
| Serializers.InsertItemsKeepsValid | core/serializers.py:441-442 | the loop keeps every database constraint |
| Serializers.InsertItemsLoop | core/serializers.py:441-442 | the loop in place matches its functional model |
| Serializers.Creator | core/serializers.py:431-437 | the creator is the requester's trainer profile when they are a PERSONAL with one; otherwise it is not set |
| Serializers.CreateWorkoutRow | core/serializers.py:439 | the new workout has a fresh id, the payload's fields, `ativo` defaulting to true, and the creator |
| Serializers.CreateWorkoutItems | core/serializers.py:427-444 | the workout's items are exactly the entries; other rows are kept; refused exactly when an exercise repeats |
| Serializers.CreateWorkoutKeepsValid | core/serializers.py:427-444 | creating a workout for an existing student with existing exercises keeps every constraint |
| Serializers.CreateWorkout | core/serializers.py:427-444 | the create in place matches its functional model |
| Serializers.PatchWorkout | core/serializers.py:449-451 | each supplied column replaces the old one; the others are kept |
| Serializers.UpdateWithoutItems | core/serializers.py:447-452 | without `itens` only the workout row changes |
| Serializers.UpdateReplacesItems | core/serializers.py:454-458 | with `itens`, the workout's rows are exactly the entries; other workouts' rows are kept; refused exactly when an exercise repeats |
| Serializers.UpdateWorkout | core/serializers.py:446-460 | the update in place matches its functional model |
| Forms.TrainerField | projeto-pratico/academias/forms.py:72-87 | a PERSONAL with a profile is the only and locked choice; one without a profile has none; others choose among all; on edit the initial value is the student's current trainer, on create the PERSONAL |
| Forms.PersonalChoosesSelf | projeto-pratico/academias/forms.py:73-83 | creating a student, a PERSONAL with a profile always ends up as the responsible trainer; one without can only leave it blank |
| Forms.PersonalEditKeepsTrainer | projeto-pratico/academias/forms.py:57-83 | editing a student, a PERSONAL with a profile binds the student's current trainer, and the form is refused exactly when that is another trainer |
| Forms.Bound | projeto-pratico/academias/forms.py:81-83 | a disabled field binds its initial value whatever was submitted; an enabled one binds the submission |
| Forms.CountUsername | projeto-pratico/academias/forms.py:94-96 | the username is the local part followed by the user count, longer than the local part |
| Forms.CountUsernameCanClash | projeto-pratico/academias/forms.py:94-96 | a table where the count name is held, so the INSERT is refused |
| Forms.FormUsername | projeto-pratico/academias/forms.py:94-96 | corrected: a name nobody holds, extending the count name and equal to it when that is free |
| Forms.NewFormUser | projeto-pratico/academias/forms.py:94-102 | the new student's email column holds the normalized email and the password its hash |
| Forms.EditedUser | projeto-pratico/academias/forms.py:106-112 | email (as typed, not normalized) and names are overwritten; the password is replaced by the hash of a non-empty typed one, and kept otherwise |
| Forms.NewStudentThroughForm | projeto-pratico/academias/forms.py:89-117 | a new student is a new ALUNO user; on commit the profile holds the form's columns, otherwise the handler's blank profile |
| Forms.EditStudentThroughForm | projeto-pratico/academias/forms.py:104-115 | the user gets the new email and names, and the hash of a new password only when one was typed; the profile changes only on commit |
| Forms.PersonalSeesFormStudent | projeto-pratico/academias/forms.py:73-83 | a student committed through a trainer's form is assigned to that trainer and visible in the trainer's viewset |
| Forms.AlunoForm.constructor | projeto-pratico/academias/forms.py:55-87 | editing prefills the user fields and makes the password optional; creating requires it; the trainer field follows the requester and the edited student |
| Forms.AlunoForm.Profile | projeto-pratico/academias/forms.py:90 | the profile carries the submitted columns with the trainer the field binds, which for a valid form is blank or one of its choices |
| Forms.AlunoForm.Save | projeto-pratico/academias/forms.py:89-117 | a form whose trainer field does not validate writes nothing; otherwise the save in place matches the new-student and edit-student functions; corrected: a new user is named by `FormUsername`, which is the count name when it is free and the first free name + "1", name + "2", ... otherwise, where the code as written keeps the count name and the INSERT is refused (see Findings) |
| Forms.StudentChoices | treinos/forms.py:31-38 | choices are always students; everyone but a PERSONAL chooses among all of them, a PERSONAL without a profile among none |
| Forms.TrainerChoicesMatchViewset | treinos/forms.py:36 | a PERSONAL's choices are exactly the students the viewset shows them |
| Forms.FormWorkout | treinos/forms.py:40-47 | the form's columns on the workout; the requester becomes the creator when a PERSONAL with a profile, otherwise the creator is kept |
| Forms.TreinoForm.constructor | treinos/forms.py:27-38 | the form records the requester and the edited workout, and offers the student choices of its requester |
| Forms.TreinoForm.Save | treinos/forms.py:31-50 | a student outside the form's choices fails validation and nothing is written; otherwise the workout is written only on commit: an INSERT of a new one or an UPDATE of the edited one |
| Forms.PersonalFormWorkoutForOwnStudent | treinos/forms.py:31-47 | a workout a PERSONAL saves through the form is for a student the viewset shows them, and names them as creator |
| Forms.InsertByNameSorted | treinos/forms.py:79 | inserting into a list sorted by name keeps it sorted |
| Forms.ByName | treinos/forms.py:79 | sorting by name gives a permutation of the exercises, in ascending name order |
| Forms.ExerciseChoices | treinos/forms.py:79 | every exercise once, in ascending name order |
| Forms.FormsetForms | treinos/forms.py:83-91 | an unbound formset shows one form per item plus one blank extra form |
| Forms.InitialForms | treinos/forms.py:83-91 | the formset as shown: one unmarked form per item, in order, then one blank extra form |
| Forms.KeptItems | treinos/forms.py:83-91 | the items that stay are exactly those of the forms whose DELETE box is clear |
| Forms.NewItems | treinos/forms.py:83-91 | no new item is added exactly when no extra form is both changed and unmarked |
| Forms.ResubmittedFormsetKeepsItems | treinos/forms.py:83-91 | sending the formset back as shown passes the count checks, keeps every item and adds none |
| Forms.DeletingEveryItemLeavesNone | treinos/forms.py:89-90 | marking every form for deletion still validates, with no minimum enforced, and leaves the workout without items |
| Forms.TooManyFormsRefused | treinos/forms.py:83-91 | more forms than `absolute_max` (2000) are refused |
| Importer.TextField | projeto-pratico/treinos/management/commands/import_exercicios.py:48 | an absent key or a null gives no value, a string gives itself, anything else is refused as unsupported |
| Importer.ListField | projeto-pratico/treinos/management/commands/import_exercicios.py:53 | an absent list gives the empty list; a present one is accepted exactly when it is a list of strings |
| Importer.ParseItem | projeto-pratico/treinos/management/commands/import_exercicios.py:43-57 | a non-object is refused as not an object, an object without a name as nameless, and a parsed exercise carries the item's name |
| Importer.ParseToJson | projeto-pratico/treinos/management/commands/import_exercicios.py:43-57 | reading the object written for an exercise gives back that exercise |
| Importer.Named | projeto-pratico/treinos/management/commands/import_exercicios.py:44 | the lookup finds the row of that name exactly when the table holds the name |
| Importer.Upsert | projeto-pratico/treinos/management/commands/import_exercicios.py:43-58 | a refusal changes nothing; a success reports a creation exactly for a new name and leaves that name in the table |
| Importer.Step | projeto-pratico/treinos/management/commands/import_exercicios.py:42-66 | a failure changes nothing; otherwise it is the upsert, counted as created for a new name and updated for a known one |
| Importer.Run | projeto-pratico/treinos/management/commands/import_exercicios.py:39-66 | corrected loop: every item is counted once, as created, updated or failed, and no name is lost |
| Importer.ImportOf | projeto-pratico/treinos/management/commands/import_exercicios.py:35-37 | a document that is not a list stops the command before any write; otherwise the counts cover every item; corrected: it runs `Run`, which reports an item that is not an object and goes on, where the code as written aborts (see Findings) |
| Importer.Import | projeto-pratico/treinos/management/commands/import_exercicios.py:31-66 | the command in place matches its functional model; corrected: an item that is not an object is reported and skipped, where the code as written aborts (see Findings) |
| Importer.ImportItem | projeto-pratico/treinos/management/commands/import_exercicios.py:42-66 | the loop body in place matches the step function |
| Importer.NonObjectAbortsImport | projeto-pratico/treinos/management/commands/import_exercicios.py:65-66 | as written, a non-object item ahead of a new exercise aborts before that exercise is written; the corrected loop reports it and imports the exercise |
| Importer.NewItemWritten | projeto-pratico/treinos/management/commands/import_exercicios.py:43-61 | a one-item file holding a new exercise with free name and slug creates its row and counts it as created |
| Importer.AsWrittenAgreesOnObjects | projeto-pratico/treinos/management/commands/import_exercicios.py:39-66 | on files of objects only, the loop as written and the corrected one agree |
| Importer.RunAppend | projeto-pratico/treinos/management/commands/import_exercicios.py:39 | running two lists one after the other equals running their concatenation |
| Importer.UpsertHolds | projeto-pratico/treinos/management/commands/import_exercicios.py:43-58 | a successful upsert leaves its exercise as the one row of that name |
| Importer.UpsertRow | projeto-pratico/treinos/management/commands/import_exercicios.py:43-58 | a successful upsert writes one row: the row already holding that name, or a fresh one, and no other row holds the name |
| Importer.LaterItemWins | projeto-pratico/treinos/management/commands/import_exercicios.py:43-58 | when a file names an exercise twice, the last written item decides the row |
| Importer.KnownNamesCreateNothing | projeto-pratico/treinos/management/commands/import_exercicios.py:60-63 | once every name is in the table, a run creates nothing |
| Importer.CleanRunNamesAll | projeto-pratico/treinos/management/commands/import_exercicios.py:39-63 | a run without reports leaves every item's name in the table |
| Importer.RerunCreatesNothing | projeto-pratico/treinos/management/commands/import_exercicios.py:39-63 | re-running a file whose import reported nothing creates no row |
| Importer.SettledUpsertIsNoOp | projeto-pratico/treinos/management/commands/import_exercicios.py:43-58 | upserting an exercise whose row already holds it changes nothing |
| Importer.CleanRunSettles | projeto-pratico/treinos/management/commands/import_exercicios.py:39-63 | after a clean run over distinct names every item's exercise is in the table as given |
| Importer.SettledRunIsNoOp | projeto-pratico/treinos/management/commands/import_exercicios.py:39-63 | over settled exercises the loop writes nothing and counts every item as updated |
| Importer.ImportIsIdempotent | projeto-pratico/treinos/management/commands/import_exercicios.py:31-70 | importing again a clean file of distinct names creates nothing, updates every item, and leaves the table as it was |
| ApiClient.Render | projeto-pratico/frontend/src/lib/api.ts:103 | `toString()` of a filter value: a string as itself, a non-negative number as its digits |
| ApiClient.FormEncode | projeto-pratico/frontend/src/lib/api.ts:102-105 | every output character belongs to the form-encoding alphabet, and nothing is lost in length |
| ApiClient.DecodeFormEncode | projeto-pratico/frontend/src/lib/api.ts:102-105 | form decoding inverts form encoding, giving back the UTF-8 bytes |
| ApiClient.PlainEncodesAsItself | projeto-pratico/frontend/src/lib/api.ts:103-104 | letters, digits and `*-._` encode as themselves, so parameter names are unchanged |
| ApiClient.Serialize | projeto-pratico/frontend/src/lib/api.ts:105 | the query is empty exactly when there are no pairs |
| ApiClient.NotInEncoding | projeto-pratico/frontend/src/lib/api.ts:105 | no `=`, `&` or `?` appears in an encoded string |
| ApiClient.PairRoundTrip | projeto-pratico/frontend/src/lib/api.ts:105 | an encoded pair splits back at its first `=` |
| ApiClient.ParseSerialize | projeto-pratico/frontend/src/lib/api.ts:105 | parsing a serialised query gives back every pair, in order |
| ApiClient.QueryRoundTrip | projeto-pratico/frontend/src/lib/api.ts:102-105 | every name and value decodes to the UTF-8 bytes of what was appended |
| ApiClient.PathAndQuery | projeto-pratico/frontend/src/lib/api.ts:105 | a path without `?` and a query split back into the two |
| ApiClient.QueryUrl | projeto-pratico/frontend/src/lib/api.ts:105 | a path and a query joined by `?` parse back into the path and the pairs |
| ApiClient.StudentFilters | projeto-pratico/frontend/src/lib/api.ts:103-104 | `personal` before `academia`, each only when truthy |
| ApiClient.StudentList | projeto-pratico/frontend/src/lib/api.ts:100-108 | the bare path without filters; otherwise `?` and a query that parses back to exactly the truthy filters in order |
| ApiClient.FilteredPath | projeto-pratico/frontend/src/lib/api.ts:131-133 | `?name=value` is appended exactly for a truthy value, unencoded |
| ApiClient.WorkoutList | projeto-pratico/frontend/src/lib/api.ts:129-136 | `?aluno=` only for a truthy student |
| ApiClient.TrainerList | projeto-pratico/frontend/src/lib/api.ts:189-196 | `?academia=` only for a truthy gym |
| ApiClient.StudentReport | projeto-pratico/frontend/src/lib/api.ts:224-228 | `?periodo=X` exactly when a period is given |
| ApiClient.GymReport | projeto-pratico/frontend/src/lib/api.ts:229-233 | `?periodo=X` exactly when a period is given |
| ApiClient.AdminReport | projeto-pratico/frontend/src/lib/api.ts:234-238 | `?periodo=X` exactly when a period is given |
| ApiClient.TrainerReportFilters | projeto-pratico/frontend/src/lib/api.ts:218-220 | `aluno_id` never for an absent, empty or "todos" student |
| ApiClient.TrainerReport | projeto-pratico/frontend/src/lib/api.ts:217-223 | always `?`, followed by a query that parses back to the filters |
| ItemEditor.MaxId | frontend/src/app/dashboard/personal/treinos/novo/page.tsx:78 | at least 0 and every id, and either 0 or one of the ids |
| ItemEditor.NextId | frontend/src/app/dashboard/personal/treinos/novo/page.tsx:78 | the new id is positive and not used by any row |
| ItemEditor.Without | frontend/src/app/dashboard/personal/treinos/novo/page.tsx:84 | keeps exactly the rows with another id |
| ItemEditor.Updated | frontend/src/app/dashboard/personal/treinos/novo/page.tsx:89-91 | rows with that id get the value in that input only; all other rows and inputs are unchanged |
| ItemEditor.Submitted | frontend/src/app/dashboard/personal/treinos/novo/page.tsx:104 | exactly the rows naming an exercise |
| ItemEditor.WithoutAppend | frontend/src/app/dashboard/personal/treinos/novo/page.tsx:84 | the filter distributes over concatenation and keeps one row exactly when its id differs, so the kept rows keep their order and multiplicity |
| ItemEditor.SubmittedAppend | frontend/src/app/dashboard/personal/treinos/novo/page.tsx:104 | the submitted rows likewise: distributes over concatenation, a row kept exactly when it names an exercise |
| ItemEditor.WithoutDropsAtMostOne | frontend/src/app/dashboard/personal/treinos/novo/page.tsx:84 | with distinct ids the filter drops at most one row, and none for an absent id |
| ItemEditor.WithoutKeepsDistinct | frontend/src/app/dashboard/personal/treinos/novo/page.tsx:84 | the filter keeps the ids distinct |
| ItemEditor.RemoveKeepsWellFormed | frontend/src/app/dashboard/personal/treinos/novo/page.tsx:82-86 | removing keeps the list non-empty with distinct positive ids |
| ItemEditor.AddKeepsWellFormed | frontend/src/app/dashboard/personal/treinos/novo/page.tsx:77-80 | adding keeps the list non-empty with distinct positive ids |
| ItemEditor.Editor.constructor | frontend/src/app/dashboard/personal/treinos/novo/page.tsx:73-75 | the page starts with one blank row of id 1 |
| ItemEditor.Editor.Add | frontend/src/app/dashboard/personal/treinos/novo/page.tsx:77-80 | a blank row with the next id is appended, and the list stays well formed |
| ItemEditor.Editor.Remove | frontend/src/app/dashboard/personal/treinos/novo/page.tsx:82-86 | the row is filtered out unless it is the last one, and the list stays well formed |
| ItemEditor.Editor.Update | frontend/src/app/dashboard/personal/treinos/novo/page.tsx:88-92 | one input of the row with that id is set, and the list stays well formed |
| ItemEditor.Editor.Submit | frontend/src/app/dashboard/personal/treinos/novo/page.tsx:104 | the rows sent are those naming an exercise |
| Grouping.IndexOf | projeto-pratico/frontend/src/app/dashboard/admin/relatorios/page.tsx:657 | `find` as an index: -1 exactly when no group has the key, otherwise the first group holding it |
| Grouping.AddEntry | projeto-pratico/frontend/src/app/dashboard/admin/relatorios/page.tsx:656-662 | one reduce step keeps the number of groups for a known key, and appends one group after the others for a new key |
| Grouping.GroupSumKeys | projeto-pratico/frontend/src/app/dashboard/admin/relatorios/page.tsx:655-663 | every key that occurs has exactly one group, and there are no other groups |
| Grouping.GroupSumTotals | projeto-pratico/frontend/src/app/dashboard/admin/relatorios/page.tsx:659 | each group's total is the sum of its key's amounts |
| Grouping.GroupSumGrandTotal | projeto-pratico/frontend/src/app/dashboard/admin/relatorios/page.tsx:655-663 | the groups add up to all the amounts |
| Grouping.GroupSumOrder | projeto-pratico/frontend/src/app/dashboard/admin/relatorios/page.tsx:661 | groups come in order of their key's first entry |
| AdminReportPage.CategoryReduce | projeto-pratico/frontend/src/app/dashboard/admin/relatorios/page.tsx:655-663 | the reduce over the popular exercises yields the grouped sums of (category, uses) in list order |
| AdminReportPage.CategorySlices | projeto-pratico/frontend/src/app/dashboard/admin/relatorios/page.tsx:655-663 | one slice per category that occurs, and no other |
| AdminReportPage.CategoryTotals | projeto-pratico/frontend/src/app/dashboard/admin/relatorios/page.tsx:657-662 | each slice sums its category's uses; slices in first-row order; all uses accounted for |
| AdminReportPage.GroupCount | projeto-pratico/frontend/src/app/dashboard/admin/relatorios/page.tsx:671-673 | there are never more groups than rows |
| AdminReportPage.CellColour | projeto-pratico/frontend/src/app/dashboard/admin/relatorios/page.tsx:672 | a cell's fill is always one of the five theme colours |
| AdminReportPage.ColourCycles | projeto-pratico/frontend/src/app/dashboard/admin/relatorios/page.tsx:672 | documentation only, a fact about the constants: fills repeat every five cells |
| AdminReportPage.ColoursDistinctWithinFive | projeto-pratico/frontend/src/app/dashboard/admin/relatorios/page.tsx:130-136 | documentation only, a fact about the constants: five consecutive cells get five different fills |
| AdminReportPage.PieSliceColours | projeto-pratico/frontend/src/app/dashboard/admin/relatorios/page.tsx:671-673 | each slice has a cell, since cells are listed per row, and the first five slices get the first five colours |
| AdminReportPage.ErrorBadge | projeto-pratico/frontend/src/app/dashboard/admin/relatorios/page.tsx:294-295 | "Saudável" with the default variant exactly below 1%, otherwise "Atenção" |
| AdminReportPage.UptimeBadge | projeto-pratico/frontend/src/app/dashboard/admin/relatorios/page.tsx:307-308 | "Excelente" with the default variant exactly from 99%, otherwise "Bom" |
| AdminReportPage.ErrorBadgeMonotone | projeto-pratico/frontend/src/app/dashboard/admin/relatorios/page.tsx:294-295 | documentation only, a fact about the constants: a lower error rate never loses "Saudável" |
| AdminReportPage.UptimeBadgeMonotone | projeto-pratico/frontend/src/app/dashboard/admin/relatorios/page.tsx:307-308 | documentation only, a fact about the constants: a higher uptime never loses "Excelente" |
| Minutes.JsRem | frontend/src/app/dashboard/aluno/relatorios/page.tsx:238 | JavaScript `%`: the remainder takes the dividend's sign and is smaller than the divisor |
| Minutes.TimeSplit | projeto-pratico/frontend/src/app/dashboard/aluno/page.tsx:116-117 | for a non-negative total, 60·hours + minutes gives it back with minutes in [0, 60); for a negative one, both parts are non-positive |
| Minutes.TimeSplitUnique | projeto-pratico/frontend/src/app/dashboard/aluno/page.tsx:116-117 | the hours and minutes of a non-negative total are the only such pair |
| Minutes.NegativeTimeSplit | projeto-pratico/frontend/src/app/dashboard/aluno/page.tsx:116-117 | -61 splits into -2 hours and -1 minute, which do not add back to -61 |
| Minutes.MinutesReadBack | projeto-pratico/frontend/src/app/dashboard/aluno/page.tsx:118 | "<m>m" reads back as m minutes |
| Minutes.HoursReadBack | frontend/src/app/dashboard/aluno/relatorios/page.tsx:238 | "<h>h <m>m" reads back as 60·h + m minutes |
| StudentDashboard.FormatTempo | projeto-pratico/frontend/src/app/dashboard/aluno/page.tsx:115-119 | the text always ends in "m" |
| StudentDashboard.HoursShownFromOneHour | projeto-pratico/frontend/src/app/dashboard/aluno/page.tsx:118 | the hours are shown exactly from 60 minutes on |
| StudentDashboard.FormatTempoReadsBack | projeto-pratico/frontend/src/app/dashboard/aluno/page.tsx:115-119 | a non-negative time reads back from its text |
| StudentDashboard.FormatTempoInjective | projeto-pratico/frontend/src/app/dashboard/aluno/page.tsx:115-119 | different non-negative times are shown differently |
| StudentDashboard.GoalText | projeto-pratico/frontend/src/app/dashboard/aluno/page.tsx:185-187 | "Meta atingida!" exactly when the goal is reached |
| StudentDashboard.GoalPlural | projeto-pratico/frontend/src/app/dashboard/aluno/page.tsx:187 | below the goal the message starts "Faltam " exactly for more than one left and "Falta " exactly for one |
| StudentDashboard.GoalCount | projeto-pratico/frontend/src/app/dashboard/aluno/page.tsx:187 | the number in the message is the remaining count |
| StudentDashboard.FallbackMessages | projeto-pratico/frontend/src/app/dashboard/aluno/page.tsx:83-91 | after a failed load the page shows "0m" and "Faltam 5 treinos!" |
| StudentReportPage.ChartPoint | frontend/src/app/dashboard/aluno/relatorios/page.tsx:149-157 | the `forEach` builds exactly the point the assignment sequence describes |
| StudentReportPage.ChartData | frontend/src/app/dashboard/aluno/relatorios/page.tsx:148-158 | no points without series; otherwise one point per sample of the first series |
| StudentReportPage.AssignAt | frontend/src/app/dashboard/aluno/relatorios/page.tsx:151-155 | under a key, the last series of that name with a sample wins; a key no such series names keeps its value |
| StudentReportPage.PointKeys | frontend/src/app/dashboard/aluno/relatorios/page.tsx:150-155 | a point's keys are "data" and the series names with a sample at the index; each holds its last series' load |
| StudentReportPage.PointLabel | frontend/src/app/dashboard/aluno/relatorios/page.tsx:150 | a point carries the first series' date, unless an exercise named "data" overwrites it with a load |
| StudentReportPage.ShortSeriesIgnored | frontend/src/app/dashboard/aluno/relatorios/page.tsx:152 | a series too short for the index adds no key |
| StudentReportPage.CategoryColour | frontend/src/app/dashboard/aluno/relatorios/page.tsx:164 | grey exactly for a category outside the eight named ones |
| StudentReportPage.NamedColoursDistinct | frontend/src/app/dashboard/aluno/relatorios/page.tsx:88-98 | two named categories never share a colour |
| StudentReportPage.PieData | frontend/src/app/dashboard/aluno/relatorios/page.tsx:161-165 | one slice per category, in order, with its count, grey exactly when unnamed |
| StudentReportPage.TotalTimeReadsBack | frontend/src/app/dashboard/aluno/relatorios/page.tsx:238 | the "Tempo Total" card reads back as the total |
| StudentReportPage.TotalAppend | frontend/src/app/dashboard/aluno/relatorios/page.tsx:529 | the total over two histories is the sum of their totals |
| StudentReportPage.TotalBounds | frontend/src/app/dashboard/aluno/relatorios/page.tsx:529 | with non-negative counts, the total is at least any one session's count |
| StudentReportPage.NonNegativeTotal | frontend/src/app/dashboard/aluno/relatorios/page.tsx:529 | non-negative counts give a non-negative total |
| StudentReportPage.Average | frontend/src/app/dashboard/aluno/relatorios/page.tsx:542-545 | 0 for an empty history; otherwise the integer within half a unit of total/n, halves rounded up |
| TrainerReportPage.StudentLabel | frontend/src/app/dashboard/personal/relatorios/page.tsx:87 | `nome`, else the full name trimmed with JavaScript's blank set, else the email, else "Aluno", each taken exactly when the earlier ones are empty; never empty |
| TrainerReportPage.FirstNameOnly | frontend/src/app/dashboard/personal/relatorios/page.tsx:87 | a student with only an unpadded first name is labelled by it |
| TrainerReportPage.BlankNamesGiveAluno | frontend/src/app/dashboard/personal/relatorios/page.tsx:87 | blank names and no email give "Aluno" |
| TrainerReportPage.TrendOf | frontend/src/app/dashboard/personal/relatorios/page.tsx:196-206 | the icon is up exactly from zero, and then the text has a "+" |
| TrainerReportPage.PlusMeansRise | frontend/src/app/dashboard/personal/relatorios/page.tsx:218-228 | the text starts with "+" exactly for a non-negative variation |
| TrainerReportPage.FrequencyColour | frontend/src/app/dashboard/personal/relatorios/page.tsx:416-418 | green from 80, yellow from 60 up to 80, red below 60 |
| TrainerReportPage.ColourMonotone | frontend/src/app/dashboard/personal/relatorios/page.tsx:416-418 | a higher frequency never gets a worse colour |
| TrainerReportPage.BarWidth | frontend/src/app/dashboard/personal/relatorios/page.tsx:419 | the bar never exceeds 100 and is exact up to 100 |
| TrainerReportPage.StatusOf | frontend/src/app/dashboard/personal/relatorios/page.tsx:432-433 | "Ativo" exactly from 70 |
| TrainerReportPage.ColourAndStatus | frontend/src/app/dashboard/personal/relatorios/page.tsx:416-433 | documentation only, a fact about the constants: green implies "Ativo" and red "Irregular"; yellow can go with either |
| TrainerReportPage.WithoutWeek | frontend/src/app/dashboard/personal/relatorios/page.tsx:532 | the filter keeps exactly the keys other than "semana" |
| TrainerReportPage.WithoutWeekAppend | frontend/src/app/dashboard/personal/relatorios/page.tsx:532 | the filter distributes over concatenation and keeps one key exactly when it is not "semana", so the other keys keep their order and multiplicity |
| TrainerReportPage.WithoutWeekKeepsOrder | frontend/src/app/dashboard/personal/relatorios/page.tsx:532 | without "semana" the filter changes nothing |
| TrainerReportPage.ChartKeys | frontend/src/app/dashboard/personal/relatorios/page.tsx:531-533 | at most three lines, never "semana", the first keys of the first row, all when three or fewer |
| TrainerReportPage.LineColour | frontend/src/app/dashboard/personal/relatorios/page.tsx:535-541 | a line's colour is one of the three colours |
| TrainerReportPage.LineColoursDistinct | frontend/src/app/dashboard/personal/relatorios/page.tsx:535-541 | no two drawn lines share a colour |

## Left out

- Network, HTTP plumbing and authentication are not modelled. This covers axios, the JWT interceptors, DRF permissions, routing and the HTTP status objects; the gates are modelled as `Denied` values.
- The pages' rendering is not modelled: markup, loading states, placeholders and the mock data of the new-workout page.
- Date formatting (`strftime`, `toLocaleDateString`) and the month labels are not modelled; only the bucket bounds are.
- Python's `round(x, 1)` and JavaScript's rendering of non-integral numbers are not modelled. Rates are exact reals, and `TrendOf` takes the shown text of the number as a parameter.
- Calendar arithmetic (`replace(day=1)`) is a parameter `snap`. The lemmas that need it ask for `IsMonthSnap`: the snap never moves a time forward and keeps the order of times a whole number of days apart. `ReplaceDayOneIsMonthSnap` shows that the first day of the month at the same time of day meets it for any calendar, given the calendar's first-of-month function on day numbers; the Gregorian calendar itself is not modelled.
- Some columns are read by the report views although the models shown do not declare them: `Aluno.academia`, the workout's `tipo` and `nome`, and the item's `carga`. They are modelled as the corresponding columns (`academia`, `tipo`, the workout's name, `carga_kg`). Against the models as declared, those lookups would raise a field error.
- The `Sum("repeticoes")` column of the student report is not modelled, since `repeticoes` is a text column. Nor are the `mediaCarga` averages.
- The trainer report's `progresso_carga` block is not modelled, nor its simulated `media_progresso`.
- The `sequencia_dias` and `taxa_retencao` figures are not modelled; they are fixed values.
- Serializers.TotalPersonaisCountsTrainers: holds only while every user's profiles follow their role.
- `limit_choices_to` on the foreign keys is not modelled. It restricts form choices only, and the forms override those choices.
- The formset's per-form validation (the item columns, the workout and exercise pair that must be unique) and the UPDATE of a changed existing item are not modelled. The model covers the count checks and which items stay or are added.
- VisibleGyms: its own contract states only that the result holds existing gyms. The per-role scope is stated by the lemmas SystemAdminSeesAll, TrainerScope, TrainerGymsAreStudentGyms, GymAdminSeesOwnGym, GymlessAdminSeesNothing and StudentSeesOnlySelf.
- VisibleTrainers: its own contract states only that the result holds existing trainer profiles. The per-role scope is stated by the same lemmas.
- VisibleStudents: its own contract states only that the result holds existing student profiles. The per-role scope is stated by the same lemmas.
- VisibleWorkouts: its own contract states only that the result holds existing workouts. The per-role scope is stated by the same lemmas and WorkoutsFollowStudents.
- Queries.Rows reads a queryset without `order_by` in ascending primary key. The database does not promise that order, so every row described as "in queryset order" rests on this choice.
- Queries.TallyTies puts equal totals of `order_by("-total")` in the order of each value's first row. The database leaves that order open, so "ties in first-row order" rests on this choice.
- StudentViews.TrackedExercises takes the `.distinct()` rows in the order of each exercise's first item. The database leaves that order open, and so which five exercises are tracked.
- Periods.WeekDay computes Django's `week_day` in UTC. With time-zone support on, Django extracts it in the current time zone, which can move a workout to the next or the previous day.
- RelatorioAdmin: its gym growth column is the corrected count of new gyms; the code as written gives 0 (AdminViews.GymGrowthAsWrittenIsZero).
- RelatorioAdminOf: the same corrected gym growth column as RelatorioAdmin.
- Save: AlunoForm.Save names a new user with the corrected `FormUsername`; the code as written always uses the local part plus the user count, which another user can already hold (Forms.CountUsername, Forms.CountUsernameCanClash).
- ImportOf: it runs the corrected loop `Run`; the code as written aborts on an item that is not an object (Importer.NonObjectAbortsImport).
- Import: the same corrected loop as ImportOf.
- Text.PyInt: `int()` also accepts non-ASCII decimal digits, which the model refuses. Text.PyIntRejects and Selections.ForStudentParamRejects rest on the same choice.
- ReadStudentParam: `int()` also accepts non-ASCII decimal digits (Arabic-Indic, full-width and others). The model refuses them. Numbers beyond the database's integer range are not modelled either.
- AlunoForm.Save: only the trainer field is validated. The other fields' checks (the e-mail format, the gym choice, the date, the required password) are not modelled.
- Tables.InsertGym and Tables.UpdateGym do not refuse a responsible user that does not exist. Their keeps-valid lemmas require one that does.
- Forms.ExerciseChoices uses a plain lexicographic order on characters for `order_by("nome")`. A database collation may order differently.
- Forms.ExerciseChoices requires the exercise keys to be below the key bound, which holds for every database state the model builds.
- Importer.ParseItem: a name or text field that is not a string is refused as a failed item, rather than coerced by the column.
- Importer.ParseItem: list columns are read only as lists of strings.
- File reading, `json.load` errors and the messages written to stderr and stdout are not modelled. The command starts from the decoded value.
- Importer.ImportIsIdempotent: requires the file's names to be distinct. With repeated names, a later item with another slug can be refused against a row an earlier item wrote on the second run, for example names A, A, B with slugs x, y, x.
- ApiClient.Render: filter values are integers or strings; JavaScript's rendering of other numbers is not modelled.
- The `id` key that `atualizarItem` could set is not modelled: `ItemEditor.Field` offers only the four inputs the page binds.
- Keys that `Object.keys` lists before the others are not modelled, since it orders integer-like keys first. `ChartKeys` takes the keys in the order given.
- The prototype keys of the `categoriasCores` object literal (such as `constructor`) are not modelled. They would give a category of that name a non-colour.
- StudentReportPage.Average: there is no uniqueness lemma; the ensures pins the result to within half a unit.
- Minutes.TimeSplit: for a negative total, the pages' text does not read back as the total (`NegativeTimeSplit`). The read-back lemmas require a non-negative total.
- The admin page's reduce is modelled on values. The accumulator's objects are fresh, so no input row is changed; aliasing is therefore not modelled.
- Column widths (`max_length`) are not enforced by every database backend. `Limits` states which rows fit, but no write is refused for length.
- DRF field validation of the serializers is not modelled: e-mail format, `min_length` and required flags. The serializers are modelled from `validated_data` on.
- Serializers.NewUser: the username is the email as given; the NFKC normalization `create_user` applies to it is not modelled. The email's domain is lowered for the ASCII letters only (Emails.NormalizeEmail), where Python's `str.lower()` also lowers other scripts.
- Forms.NewFormUser: the same ASCII-only lowering of the domain, and no NFKC normalization of the username.
- Forms.EditedUser: `set_password` is modelled as `Hashed` of the typed text; the salt and the algorithm of the stored hash are not modelled, only that different passwords give different stored values.
- Tables.InsertUser: does not refuse a gym reference (`academia`) that does not exist, which the database's foreign key would. The callers pass users without a gym or with a gym chosen from existing ones, and InsertUserKeepsValid requires the reference to exist.
- Tables.UpdateUser: does not refuse a missing gym reference either; UpdateUserKeepsValid requires it to exist.
- Tables.InsertStudent: does not refuse a key that is not a user, nor a missing trainer or gym reference. The serializers' `PrimaryKeyRelatedField` and the forms' `ModelChoiceField` reject such keys before the write; the keeps-valid lemmas require them to exist.
- Tables.SaveStudent: the same: a key that is not a user and a missing trainer or gym reference are not refused.
- Tables.InsertWorkout: does not refuse a missing student or creator, which the database's foreign keys would; the keys come from validated choices, and InsertWorkoutKeepsValid requires them to exist.
- Tables.UpdateWorkout: the same: a missing student or creator is not refused.
- Tables.InsertItem: does not refuse a missing workout or exercise; the keys come from the parent workout and the exercise choices, and InsertItemKeepsValid requires them to exist.
- TreinoForm.Save: only the student choice is validated; the checks of the other fields (the name's length, required flags) are not modelled.
- Concurrency and transactions are not modelled. Each write stands alone, so a failing item in the create loop leaves earlier items, as the source does.

## Findings

| source | as written | input that shows it | evidently intended | confidence | as-written member | corrected member |
|---|---|---|---|---|---|---|
| projeto-pratico/treinos/management/commands/import_exercicios.py:65-66 | the error handler calls `item.get('name')` again, so an item that is not an object raises inside the handler and aborts the whole import | a file `[5, {"name": "Supino"}]` | report the bad item and go on with the next | not executed | Importer.NonObjectAbortsImport | Importer.Run |
| core/serializers.py:145 | the trainer profile is INSERTed after `create_user`, whose post-save handler has already created it | any valid trainer payload | fill in the profile the handler made (or create the user without triggering it) | not executed | Serializers.CreateTrainerAsWrittenFails | Serializers.CreateTrainerGivesProfile |
| core/serializers.py:295 | the student profile is INSERTed after the handler has already created it | any valid student payload | fill in the profile the handler made | not executed | Serializers.CreateStudentAsWrittenFails | Serializers.CreateStudentGivesProfile |
| core/api_views.py:1006-1012 | the gym column is guarded by `hasattr(Academia, "created_at")`, but the column is `data_criacao`, so it is always 0 | any gym created in the current month | count the gyms created in each month | not executed | AdminViews.GymGrowthAsWrittenIsZero | AdminViews.SystemReportSeries |
| projeto-pratico/academias/forms.py:94-96 | the new username is the local part followed by the user count, which a deletion can make collide with an existing name | users `{ana1}` only, and a new student "ana@y.com" | choose a free name | not executed | Forms.CountUsernameCanClash | Forms.FormUsername |
