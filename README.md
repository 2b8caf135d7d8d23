# Job board: a Dafny model of the API core

This project models the core of a Django REST job board. The board has users with one of
three roles (admin, job seeker, employer). It also has companies, job categories, job
postings and applications to jobs. The model covers these parts of the source:

- the models: their columns, choices, defaults, validators, unique constraints, foreign keys
  with their `on_delete` rules, their properties (`full_name`, `is_expired`, `skills_list`,
  `job_count`) and the `applications_count` bookkeeping in `Application.save` / `delete`;
- the serializers that validate request bodies and write rows: job, category, company,
  application create, and application status update;
- the views: who may do what, which rows each role sees, the orderings of the public lists,
  the featured/recent top-ten lists and the statistics endpoints;
- the `JobFilter` filterset;
- the admin bulk actions on jobs and on applications.

The database is the class `Store.Database`. Its field `tables` holds one map per table, keyed
by auto-incremented ids, plus the next-id counters. `Database.Valid()` is the schema's
invariant `Consistent`:

- ids are below their counters;
- every foreign key points at an existing row;
- emails, slugs, category names and `(job, applicant)` pairs are unique;
- every job's `applications_count` equals the number of its applications.

Each `Database` method keeps that invariant. Each method states the whole new table state,
including the behaviour on a unique-constraint violation, which leaves the tables unchanged.
`Database.DeleteUser` runs the corrected deletion, which recounts the jobs the user applied
to. As written, the deletion leaves those counters stale (see "Findings"). So the counter
clause of `Consistent` is the intended invariant, not one the code as written keeps.

Each endpoint is a method that changes the database. It is specified by a pure *decision*
function, such as `CreateJobDecision` or `WithdrawDecision`. The decision returns the HTTP
outcome in the order the framework produces it:

1. 404 lookup first;
2. then serializer validation (400);
3. then the role check in `perform_*`. As intended this is a 403. As written, the job, category and
   application views raise a name that does not exist, which is a 500 (see "Findings");
4. then the unique constraint at save (a conflict).

Lemmas next to each decision state what a successful call implies. Module by module:

- `Base`: ids, `Option`, timestamps as integers;
- `Text`: `str.strip`, `str.split`, ASCII case folding and the `icontains` lookup;
- `Ordering`: lexicographic keys for `order_by` and an insertion sort;
- `AuthModels`, `JobModels`, `CompanyModels`, `ApplicationModels`: the models;
- `Store`: the tables and their invariant;
- one module for each serializer file, view file, filter file and admin file.

The serializers strip the surrounding whitespace of every text field before they validate
or store it, as a DRF `CharField` does by default (`trim_whitespace`); choice fields are
compared as sent. The current time, `slugify` and the year read when the company model is
loaded are parameters. Text is compared by code point.

## Model

| member | source | states |
|---|---|---|
| AuthModels.ParseRole | authentication/models.py:6-10 | a parsed role code is the code of the role it yields |
| AuthModels.RoleCodeRoundTrip | authentication/models.py:6-13 | every role, the default `user` included, parses back from its stored code |
| AuthModels.PhoneDigits | authentication/models.py:14-15 | the digits part is the number itself or the number after one leading `+` |
| AuthModels.PhoneMatches | authentication/models.py:14-15 | decides the phone regex alternative by alternative: an optional `+`, then an optional `1`, then 9 to 15 digits, read over ASCII digits to the end of the string |
| AuthModels.PhoneFieldValid | authentication/models.py:14-18 | decides the `phone` column: blank (`blank=True`) or matching the regex within 17 characters |
| AuthModels.PhoneMatchesShape | authentication/models.py:14-15 | the phone regex, read over ASCII digits and without a final newline, matches exactly an optional `+`, an optional `1` and 9 to 15 digits |
| AuthModels.PhoneMatchFitsColumn | authentication/models.py:14-18 | every phone the ASCII reading of the regex accepts fits the 17-character column and passes the field's validation |
| AuthModels.PhoneMessageExample | authentication/models.py:16 | the example format given in the error message is itself a valid phone |
| AuthModels.FullName | authentication/models.py:40-41 | defines `full_name`: the first name, a space and the last name, with the whole stripped |
| AuthModels.FullNameBlank | authentication/models.py:39-41 | blank first and last names give an empty full name |
| AuthModels.FullNameWithoutFirst | authentication/models.py:39-41 | with no first name the full name is the stripped last name, without the leading space |
| AuthModels.FullNameJoins | authentication/models.py:39-41 | trimmed non-empty names are joined by exactly one space |
| Text.LeadingSpace | authentication/models.py:41 | counts the whitespace prefix: all of it is space, and the next character is not |
| Text.TrimStart | authentication/models.py:41 | the result is a suffix of the input, only spaces were removed, and it does not start with a space |
| Text.TrimEnd | authentication/models.py:41 | the result is a prefix of the input, only spaces were removed, and it does not end with a space |
| Text.Strip | authentication/models.py:41 | the result is the input's middle slice between a space-only prefix and a space-only suffix, and is trimmed |
| Text.TrimStartPrefix | authentication/models.py:41 | trimming removes exactly a leading run of spaces |
| Text.TrimEndSuffix | authentication/models.py:41 | trimming removes exactly a trailing run of spaces |
| Text.TrimStartSkipsSpace | authentication/models.py:41 | leading spaces do not affect the left trim |
| Text.StripSkipsLeadingSpace | authentication/models.py:41 | leading spaces do not affect `strip` |
| Text.StripExact | authentication/models.py:41 | `strip` returns exactly the trimmed text between any space padding |
| Text.StripIdempotent | authentication/models.py:41 | stripping twice is stripping once |
| Text.StripTrimmed | jobs/models.py:145 | a trimmed string is left unchanged by `strip` |
| Text.StripAllSpace | jobs/models.py:56 | a string of whitespace strips to the empty string, so a padded blank field is blank |
| Text.Split | jobs/models.py:145 | `split(',')` yields one more piece than there are commas, and no piece contains a comma |
| Text.JoinSplit | jobs/models.py:145 | joining the pieces with the separator rebuilds the input |
| Text.SplitNoSeparator | jobs/models.py:145 | text without the separator splits into itself |
| Text.SplitAfterPiece | jobs/models.py:145 | splitting a piece, a separator and a rest gives the piece followed by the rest's pieces |
| Text.SplitJoin | jobs/models.py:145 | splitting comma-free pieces joined by commas gives the pieces back |
| Text.Lower | jobs/filters.py:7 | the case-folded text has the same length and folds each character |
| Text.ContainsIContains | jobs/filters.py:7 | a substring match is also a case-insensitive match |
| Text.IContainsFoldsQuery | jobs/filters.py:7 | case-folding the query does not change an `icontains` match |
| Text.IContainsEmpty | jobs/filters.py:7 | the empty query matches every text |
| JobModels.IsExpired | jobs/models.py:139-140 | defines `is_expired`: false without an expiry date, otherwise the current time strictly after it |
| JobModels.ExpiryIsPermanent | jobs/models.py:138-140 | once expired a job stays expired; a job without an expiry never expires; a job is not expired at its own expiry instant |
| JobModels.SkillsList | jobs/models.py:142-146 | no skills give no list; otherwise one entry per comma-separated piece, each comma-free and trimmed |
| JobModels.SkillsListPieces | jobs/models.py:142-146 | the k-th skill is the stripped k-th comma-separated piece |
| JobModels.SkillsListRoundTrip | jobs/models.py:142-146 | trimmed comma-free skill names stored comma-joined are listed back as the same names |
| JobModels.IncrementViews | jobs/models.py:148-150 | the view counter goes up by one and no other column changes |
| JobModels.CategoryJobCount | jobs/models.py:27-29 | defines `Category.job_count`: the number of the category's jobs with `is_active`, whatever their status |
| JobModels.CategoryJobCountIgnoresStatus | jobs/models.py:27-29 | `Category.job_count` filters on `is_active` only, so changing a job's status leaves it unchanged |
| CompanyModels.ParseSize | companies/models.py:8-15 | a parsed size code is the code of the size it yields |
| CompanyModels.SizeCodeRoundTrip | companies/models.py:8-15 | every size choice, blank included, parses back from its code |
| CompanyModels.FoundedYearValid | companies/models.py:24-27 | decides the `founded_year` validators: null, or from 1800 to the year read at load time, both included |
| CompanyModels.ActiveJobCount | companies/models.py:49-51 | defines `Company.job_count` and the `active_job_count` annotation: the number of the company's jobs with `is_active` |
| CompanyModels.ActiveJobCountBounds | companies/models.py:49-51 | the count is at most the number of the company's jobs, and equals it exactly when every job of the company is active |
| ApplicationModels.ParseStatus | applications/models.py:9-17 | a parsed status code is the code of the status it yields |
| ApplicationModels.StatusCodeRoundTrip | applications/models.py:9-17 | every status parses back from its code |
| ApplicationModels.Recount | applications/models.py:65-67 | the job's counter becomes the number of its applications and no other job changes |
| ApplicationModels.RecountChangesOnlyCounter | applications/models.py:66-67 | only `applications_count` of the recounted job is written |
| ApplicationModels.InsertCount | applications/models.py:60-67 | adding an application adds one to its own job's count and nothing to the others |
| ApplicationModels.DeleteCount | applications/models.py:69-74 | removing an application removes one from its own job's count |
| ApplicationModels.InsertKeepsCounters | applications/models.py:60-67 | saving a new application and recounting keeps every counter equal to its count, and the job's counter rises by one |
| ApplicationModels.DeleteKeepsCounters | applications/models.py:69-74 | deleting an application and recounting keeps every counter right, and the job's counter drops by one |
| ApplicationModels.ResaveKeepsCounters | applications/models.py:60-65 | re-saving an existing application does not recount and stays right, because its job is unchanged |
| ApplicationModels.InsertKeepsUniquePairs | applications/models.py:49 | a new pair that was not applied for keeps `unique_together` |
| ApplicationModels.AtMostOneApplication | applications/models.py:49 | under `unique_together` a user has at most one application per job, and exactly one iff they applied |
| Store.DeleteJobCascade | applications/models.py:19 | deleting a job removes exactly that job and the applications to it, through the `CASCADE` on `Application.job` |
| Store.DeleteJobKeepsCounters | applications/models.py:19 | the cascade leaves every remaining counter right |
| Store.DeleteCompanyCascade | jobs/models.py:115 | deleting a company removes its jobs and their applications, and keeps every other row unchanged |
| Store.DeleteCompanyKeepsCounters | jobs/models.py:115 | the company cascade leaves every remaining counter right |
| Store.DeleteUserAsWritten | applications/models.py:20 | a user's deletion as the ORM runs it: their applications cascade away, their postings lose `posted_by` (jobs/models.py:117), and no counter is recomputed |
| Store.DeleteUserLeavesStaleCounter | applications/models.py:69-74 | concrete case: a job with one application keeps `applications_count == 1` after its applicant is deleted |
| Store.DeleteUserRecounting | applications/models.py:20 | the corrected deletion: the same cascade and `SET_NULL`, and then every job is recounted |
| Store.DeleteUserRecountingCounts | applications/models.py:69-74 | after the corrected deletion every counter equals its count |
| Store.DeleteUserLowersCounters | applications/models.py:20 | each job's counter falls by exactly the deleted user's applications to it |
| Store.InsertUserKeepsConsistent | authentication/models.py:12 | a user with a fresh email keeps the schema's invariant |
| Store.DeleteUserKeepsJobs | jobs/models.py:117 | after `SET_NULL` on `posted_by` the job slugs stay unique and every job reference stays valid |
| Store.DeleteUserKeepsApplications | applications/models.py:20 | after the cascade the pairs stay unique and every application points at a live job and a live user |
| Store.DeleteUserKeepsConsistent | applications/models.py:20 | the corrected user deletion keeps the whole invariant |
| Store.InsertCompanyKeepsConsistent | companies/models.py:18 | a company with a free slug keeps the invariant |
| Store.SaveCompanyKeepsConsistent | companies/models.py:18 | re-saving a company under a slug no other company has keeps the invariant |
| Store.DeleteCompanyKeepsConsistent | jobs/models.py:115 | the company cascade keeps the invariant |
| Store.InsertCategoryKeepsConsistent | jobs/models.py:11-12 | a category with a free name and a free slug keeps the invariant |
| Store.InsertJobKeepsConsistent | jobs/models.py:56-57 | a job with a free slug, valid references and a zero counter keeps the invariant |
| Store.ReplaceJobsKeepsConsistent | jobs/models.py:57 | rewriting jobs with unique slugs, valid references and unchanged counters keeps the invariant |
| Store.RewriteJobsKeepsConsistent | jobs/models.py:115-121 | rewriting only unconstrained columns of the jobs keeps the invariant |
| Store.SaveJobKeepsSlugsUnique | jobs/models.py:57 | re-saving a job under a slug no other job has keeps slugs unique |
| Store.SaveJobKeepsRefs | jobs/models.py:115-117 | a re-saved job with valid foreign keys keeps every job reference valid |
| Store.DeleteJobKeepsConsistent | jobs/models.py:115 | the job cascade keeps the invariant |
| Store.AddApplication | applications/models.py:60-67 | the new row takes the next id and its job's counter is recounted |
| Store.InsertApplicationKeepsConsistent | applications/models.py:49 | a new application for a pair not yet applied for keeps the invariant, and its job's counter goes up by one |
| Store.ReplaceApplicationsKeepsConsistent | applications/models.py:19-20 | rewriting applications without changing their job or applicant keeps the invariant |
| Store.DeleteApplicationKeepsConsistent | applications/models.py:69-74 | `Application.delete` with its recount keeps the invariant |
| Store.Database.LookupJob | jobs/views.py:102 | finds a job with that slug exactly when one exists |
| Store.Database.LookupCompany | companies/views.py:91 | finds a company with that slug exactly when one exists |
| Store.Database.InsertUser | authentication/models.py:12 | inserts the user under the next id, or refuses a taken email and leaves the tables unchanged |
| Store.Database.DeleteUser | applications/models.py:20 | runs the corrected, recounting user deletion |
| Store.Database.InsertCompany | companies/models.py:18 | inserts under the next id, or refuses a taken slug and leaves the tables unchanged |
| Store.Database.SaveCompany | companies/models.py:18 | writes the company exactly when no other company has its slug, and changes nothing otherwise |
| Store.Database.DeleteCompany | jobs/models.py:115 | removes the company and cascades to its jobs and their applications |
| Store.Database.InsertCategory | jobs/models.py:11-12 | inserts under the next id, or refuses a taken name or slug and leaves the tables unchanged |
| Store.Database.InsertJob | jobs/models.py:57 | inserts under the next id, or refuses a taken slug and leaves the tables unchanged |
| Store.Database.SaveJob | jobs/models.py:57 | writes the job exactly when no other job has its slug |
| Store.Database.RecordView | jobs/models.py:148-150 | increments the view counter of that one job and changes nothing else |
| Store.Database.DeleteJob | jobs/models.py:115 | removes the job and its applications |
| Store.Database.InsertApplication | applications/models.py:49 | inserts and recounts, or refuses a duplicate pair and leaves the tables unchanged |
| Store.Database.SaveApplication | applications/models.py:60-65 | writes an application whose job and applicant are unchanged, without a recount |
| Store.Database.DeleteApplication | applications/models.py:69-74 | removes the application and recounts its job |
| Base.MatchedCount | jobs/admin.py:90 | the count a bulk update reports is at most the table size and the selection size, and equals the selection size when every selected row exists |
| Base.Take | jobs/views.py:158 | slicing `[:10]` keeps the first `min(n, length)` elements in order |
| Ordering.KeyLeTotal | jobs/views.py:68 | any two ordering keys are comparable |
| Ordering.KeyLeTransitive | jobs/views.py:68 | the key order is transitive |
| Ordering.Insert | jobs/views.py:68 | inserting into a sorted list keeps it sorted and adds exactly that element |
| Ordering.SortByKey | jobs/views.py:68 | `order_by` yields a sorted permutation of its input |
| Ordering.SortByKeyElements | jobs/views.py:68 | sorting keeps exactly the same elements |
| Ordering.PrefixRanksFirst | jobs/views.py:173 | in a sorted list every element of a prefix ranks before every element after it |
| Ordering.InsertAgree | jobs/views.py:68 | two keys that agree on the elements give the same insertion |
| Ordering.SortByKeyAgree | jobs/views.py:68 | two keys that agree on the elements give the same order |
| Ordering.TextKey | jobs/models.py:22 | text is ordered by code point, one key column per character |
| JobSerializers.JobInputValid | jobs/serializers.py:54-61 | decides `is_valid`: a full write sends a title, a description and a company; a sent title, description or currency is not blank once stripped; the company and a non-null category exist |
| JobSerializers.PartialIsWeaker | jobs/serializers.py:54-61 | a valid full body is a valid partial body; the empty body is a valid partial body but not a valid full one |
| JobSerializers.BlankTitleRefused | jobs/models.py:56 | a title made only of whitespace is refused, on a full and on a partial write |
| JobSerializers.BlankCurrencyRefused | jobs/models.py:83 | a `salary_currency` made only of whitespace is refused, on a full and on a partial write |
| JobSerializers.ValidBodyKeepsCurrency | jobs/models.py:83 | a valid body never stores a blank currency: a create stores the sent one or `USD`, and an update keeps a non-blank one non-blank |
| JobSerializers.CreateJobRecord | jobs/serializers.py:63-67 | a created job stores the stripped title and description, takes its slug from the stored title, is posted by the caller, and starts active with zero counters |
| JobSerializers.PatchJob | jobs/serializers.py:69-73 | an update stores a sent title and description stripped, re-derives the slug from the stored title exactly when a title is sent, and stamps `updated_at` |
| JobSerializers.PatchJobKeepsProtectedFields | jobs/serializers.py:54-61 | an update never writes `is_active`, `posted_by`, the counters or `created_at`, and the empty body changes only `updated_at` |
| JobSerializers.PatchJobIdempotent | jobs/serializers.py:69-73 | sending the same update twice is sending it once |
| JobSerializers.CreateIsPatchOfDefaults | jobs/serializers.py:63-73 | creating from a body is updating the default instance with that body |
| JobSerializers.CategoryInputValid | jobs/models.py:11-14 | decides `is_valid` for a category: a full write sends a name; a sent name is not blank once stripped and is the name of no other category |
| JobSerializers.CreateCategoryRecord | jobs/serializers.py:82-84 | a created category stores its stripped name, takes its slug from it, and is active unless the body says otherwise |
| JobSerializers.PatchCategory | jobs/serializers.py:86-89 | an update stores a sent name stripped and re-derives the slug from it exactly when a name is sent |
| JobSerializers.CategoryCreateAndPatchAgree | jobs/serializers.py:82-89 | creating is updating the defaults, and repeating the same category update changes nothing more |
| JobSerializers.ValidCategoryNameIsFree | jobs/models.py:11 | a name that passes validation belongs, once stripped, to no other category |
| JobSerializers.PaddedDuplicateNameRefused | jobs/models.py:11 | the unique-name check compares the stripped name: `" Tech"` is refused beside an existing `"Tech"` |
| JobFilters.Matches | jobs/filters.py:6-25 | decides the filters together: `icontains` on location and skills, inclusive salary bounds that a null salary fails, the company and category ids, inclusive creation dates and the six exact matches |
| JobFilters.FilterJobs | jobs/filters.py:6-25 | keeps exactly the jobs of the list that match every sent filter |
| JobFilters.FilterKeepsOrder | jobs/filters.py:6-25 | filtering a sorted list leaves it sorted |
| JobFilters.NoFiltersKeepAll | jobs/filters.py:6-25 | no filters keep every job, and an empty text filter matches everything |
| JobFilters.SalaryFiltersDropNulls | jobs/filters.py:8-9 | a salary bound excludes jobs whose salary column is null |
| JobFilters.FilterIdempotent | jobs/filters.py:6-25 | filtering twice with the same query is filtering once |
| JobFilters.LocationFilterIgnoresCase | jobs/filters.py:7 | the location filter gives the same answer for a query and its case-folded form |
| JobViews.ChangeRights | jobs/views.py:134-143 | only admins may change a job without a poster; a non-admin may change a job exactly when they posted it |
| JobViews.ListedJobs | jobs/views.py:70-74 | the public listing is a subset of the jobs |
| JobViews.PublicJobList | jobs/views.py:68-74 | the list holds exactly the active jobs with status `active`, each once, sorted by the default ordering |
| JobViews.PublicListOrder | jobs/views.py:68 | featured jobs come first, then urgent ones, then the newest first |
| JobViews.FilteredListIsExactSubset | jobs/views.py:64-74 | the filtered list holds exactly the listed jobs that match, still in the default order |
| JobViews.NewestSorted | jobs/views.py:173 | the eligible jobs, each once, newest first |
| JobViews.NewestTen | jobs/views.py:173 | at most ten eligible jobs, and all ten when there are that many |
| JobViews.NewestTenInOrder | jobs/views.py:173 | the ten are ordered newest first |
| JobViews.NewestTenAreNewest | jobs/views.py:173 | no eligible job left out is newer than one returned, and with ten or fewer eligible all are returned |
| JobViews.FeaturedJobs | jobs/views.py:153-158 | at most ten jobs, all listed and featured |
| JobViews.RecentJobs | jobs/views.py:169-173 | at most ten jobs, all listed |
| JobViews.JobStatsBounds | jobs/views.py:184-193 | the total is the length of the public list; featured and remote counts never exceed it; the company and category counts never exceed their tables |
| JobViews.CategoryList | jobs/views.py:23 | exactly the active categories, sorted by name (jobs/models.py:22) |
| JobViews.JobWithSlug | jobs/views.py:102 | the job the slug lookup finds has that slug |
| JobViews.RetrieveJob | jobs/views.py:104-108 | an unknown slug changes nothing; otherwise the job is returned with its view counter incremented, and only that counter changes |
| JobViews.ViewsDoNotChangeListing | jobs/views.py:104-108 | viewing a job changes neither the listed set nor the public list's order |
| JobViews.CreateJobDecision | jobs/views.py:82-90 | decides the corrected create: 400 for an invalid body, then 403 for a job seeker, then a conflict for a taken slug, otherwise the next id |
| JobViews.CreateJobDecisionAsWritten | jobs/views.py:87-90 | decides the create as written: the same order, with a 500 in place of the 403 |
| JobViews.CreatedJobFacts | jobs/views.py:87-90 | a created job was created by an admin or an employer, is posted by the caller with zero counters, and is listed unless another status was sent |
| JobViews.CreateJobRefusalCrashes | jobs/views.py:87-90 | the corrected decision answers 403 exactly for a valid body from a job seeker; as written that request is a 500, and every other request gets the same answer |
| JobViews.CreateJob | jobs/views.py:82-90 | follows the corrected create decision, where a refused role is a 403 (a 500 as written, see "Findings"); on success the job is stored under the next id, and otherwise nothing changes |
| JobViews.UpdateJobDecision | jobs/views.py:124-137 | decides the corrected update: 404 for an unknown slug, then 400, then 403 for a non-admin who is not the poster, then a conflict for another job's slug, otherwise that job |
| JobViews.UpdateJobDecisionAsWritten | jobs/views.py:130-137 | decides the update as written: the same order, with a 500 in place of the 403 |
| JobViews.UpdatedJobFacts | jobs/views.py:130-137 | a successful update was made by an admin or the poster, and touched no protected column |
| JobViews.PatchKeepsRefs | jobs/views.py:130-137 | a valid body keeps the job's foreign keys valid and its counter unchanged |
| JobViews.UpdateJobRefusalCrashes | jobs/views.py:130-137 | the corrected decision answers 403 exactly for a valid update of someone else's job by a non-admin; as written that request is a 500, and every other request gets the same answer |
| JobViews.UpdateJob | jobs/views.py:124-137 | follows the corrected update decision, where a refused caller is a 403 (a 500 as written, see "Findings"); on success only that job is rewritten, with the patch applied, and otherwise nothing changes |
| JobViews.DeleteJobDecision | jobs/views.py:139-145 | decides the corrected delete: 404 for an unknown slug, then 403 for a non-admin who is not the poster, otherwise that job |
| JobViews.DeleteJobDecisionAsWritten | jobs/views.py:139-145 | decides the delete as written: the same order, with a 500 in place of the 403 |
| JobViews.DeleteJobRefusalCrashes | jobs/views.py:139-145 | the corrected decision answers 403 exactly when a non-admin deletes someone else's job; as written that request is a 500, and every other request gets the same answer |
| JobViews.DeleteJobView | jobs/views.py:139-145 | follows the corrected delete decision, where a refused caller is a 403 (a 500 as written, see "Findings"); on success the job and its applications are removed, and otherwise nothing changes |
| JobViews.CreateCategoryDecision | jobs/views.py:33-41 | decides the corrected category create: 400 for an invalid body, then 403 for a non-admin, then a conflict for a taken slug, otherwise the next id |
| JobViews.CreateCategoryDecisionAsWritten | jobs/views.py:38-41 | decides the category create as written: the same order, with a 500 in place of the 403 |
| JobViews.CategoryCreateRights | jobs/views.py:38-41 | only admins create categories, and a name that is taken once stripped is a validation error |
| JobViews.CreateCategoryRefusalCrashes | jobs/views.py:38-41 | the corrected decision answers 403 exactly for a valid category from a non-admin; as written that request is a 500, and every other request gets the same answer |
| JobViews.CreateCategory | jobs/views.py:33-41 | follows the corrected category create decision, where a refused role is a 403 (a 500 as written, see "Findings"); on success the category is stored under the next id, and otherwise nothing changes |
| JobAdmin.ActOn | jobs/admin.py:89-107 | each action writes exactly its columns (featured, urgent, or active with the status) and no constrained column, counter or timestamp |
| JobAdmin.BulkJobs | jobs/admin.py:87-107 | selected rows get the action, and every other row is unchanged |
| JobAdmin.DeactivateDelists | jobs/admin.py:99-101 | deactivating removes exactly the selected jobs from the public listing |
| JobAdmin.ActivateLists | jobs/admin.py:104-106 | activating adds the selected jobs to the public listing and removes none |
| JobAdmin.MarkingKeepsListing | jobs/admin.py:89-96 | marking as featured or urgent keeps the listing, and every selected job then carries the flag |
| JobAdmin.BulkJobsIdempotent | jobs/admin.py:87-107 | running an action twice is running it once |
| JobAdmin.ActivateAfterDeactivate | jobs/admin.py:99-106 | deactivating then activating leaves the rows listed and `active`, whatever their previous status |
| JobAdmin.BulkJobsKeepsCounters | jobs/admin.py:87-107 | the actions keep the application counters right |
| JobAdmin.BulkJobsKeepsConsistent | jobs/admin.py:87-107 | the actions keep the schema invariant |
| JobAdmin.RunJobAction | jobs/admin.py:89-107 | applies the action to the selected rows and reports the number of rows matched |
| ApplicationSerializers.ValidateJob | applications/serializers.py:17-33 | a job passes only if it accepts applications, is active with status `active`, is not expired, and the caller has not applied |
| ApplicationSerializers.ValidateJobReportsFirstFailure | applications/serializers.py:17-33 | the error reported is the first failing check in source order, and the job passes exactly when no check fails |
| ApplicationSerializers.CleanInput | applications/serializers.py:8-15 | the cleaned submission keeps the job, the numbers and the date, and has no text field with surrounding whitespace |
| ApplicationSerializers.CleanInputFixesTrimmed | applications/serializers.py:8-15 | cleaning leaves a submission without surrounding whitespace as it is, so cleaning twice is cleaning once |
| ApplicationSerializers.NewApplication | applications/serializers.py:35-37 | the new row belongs to the caller, is `pending` and unreviewed, and carries exactly the submitted fields as the serializer cleaned them |
| ApplicationSerializers.NewApplicationDependsOnlyOnInput | applications/serializers.py:11-15 | the row depends only on the writable fields, never on an applicant the client sends |
| ApplicationSerializers.ValidateStatusPatch | applications/serializers.py:68 | the body is refused exactly when it sends an unknown status code, and otherwise passes its status through and its notes and reason stripped |
| ApplicationSerializers.ValidateStatusPatchAcceptsCodes | applications/serializers.py:68 | every status code is accepted as that status, with the notes and reason stripped |
| ApplicationSerializers.ApplyStatusPatch | applications/serializers.py:70-75 | `reviewed_at` is stamped exactly when a different status is sent, and `updated_at` always |
| ApplicationSerializers.StatusPatchWritesOnlyItsFields | applications/serializers.py:68 | the submission columns never change, and the notes and reason change only when sent |
| ApplicationSerializers.StatusPatchIdempotent | applications/serializers.py:70-75 | repeating a status update changes only `updated_at` |
| ApplicationSerializers.ReviewStampFollowsChanges | applications/serializers.py:72-73 | a body without a status keeps the stamp, and changing the status back re-stamps it |
| ApplicationViews.ManagedScope | applications/views.py:101-109 | the update view's queryset is a subset of the table |
| ApplicationViews.VisibleScope | applications/views.py:76-89 | the detail view's queryset is a subset of the table |
| ApplicationViews.ScopesDifferOnlyForSeekers | applications/views.py:51-64 | admins and employers manage what they see; job seekers manage nothing and see exactly their own applications |
| ApplicationViews.ScopesSeparateUsers | applications/views.py:76-89 | a seeker sees only their own applications, an employer only those to their own jobs, and no application is visible to two employers |
| ApplicationViews.ApplyDecision | applications/views.py:21-29 | decides the corrected apply: 400 for an unknown job or a refusal of `validate_job`, then 403 for an employer, otherwise the next id |
| ApplicationViews.ApplyDecisionAsWritten | applications/views.py:26-29 | decides the apply as written: the same order, with a 500 in place of the 403 |
| ApplicationViews.AppliedMeansOpenJobAndPendingRow | applications/views.py:26-29 | a successful application was to an open, unexpired job, not made by an employer, and stores a pending row for the caller with the job's count up by one |
| ApplicationViews.ApplyingTwiceIsRefused | applications/serializers.py:29-31 | a second application to the same job is refused |
| ApplicationViews.ApplyRefusalCrashes | applications/views.py:26-29 | the corrected decision answers 403 exactly for an employer's application to an open job; as written that request is a 500, and every other request gets the same answer |
| ApplicationViews.Apply | applications/views.py:21-29 | follows the corrected apply decision, where a refused role is a 403 (a 500 as written, see "Findings"); on success the row is added and counted, and otherwise nothing changes |
| ApplicationViews.UpdateDecision | applications/views.py:97-114 | decides the status update: 404 outside the caller's managed queryset, then 400 for an unknown status code, then 403 for a role that may not update, otherwise the patched row |
| ApplicationViews.UpdateNeverForbidden | applications/views.py:101-114 | the 403 branch is unreachable: a job seeker's empty queryset gives a 404 first, and an employer updates only applications to their own jobs |
| ApplicationViews.UpdateApplicationStatus | applications/views.py:97-114 | follows the update decision; on success only that application is rewritten |
| ApplicationViews.WithdrawDecision | applications/views.py:141-165 | decides the withdrawal: 404 unless the application exists and is the caller's, then 400 once it is accepted or rejected, otherwise withdrawn |
| ApplicationViews.WithdrawnCopy | applications/views.py:154-155 | a withdrawn copy has status `withdrawn`, the same submission and review stamp, and a fresh `updated_at` |
| ApplicationViews.WithdrawIdempotent | applications/views.py:141-160 | a withdrawn application can be withdrawn again, to the same effect |
| ApplicationViews.WithdrawnApplicantCannotReapply | applications/views.py:154-155 | a withdrawn application still occupies the pair, so re-applying to that job is refused |
| ApplicationViews.Withdraw | applications/views.py:141-166 | 404 unless the application is the caller's, 400 if accepted or rejected; otherwise only that row becomes withdrawn |
| ApplicationViews.StatsFor | applications/views.py:174-208 | defines the statistics: the total and the seven per-status counts over the caller's visible queryset |
| ApplicationViews.SumCountsIsUnionCount | applications/views.py:197-206 | summing per-status counts over distinct statuses counts the union of those buckets |
| ApplicationViews.StatsPartitionTotal | applications/views.py:197-206 | the total equals the sum of the seven status counts |
| ApplicationViews.AllStatusesCover | applications/views.py:197-206 | the seven status buckets cover the whole queryset |
| ApplicationViews.StatsForPartition | applications/views.py:174-208 | the buckets partition each role's queryset; a seeker's total is their application count, and an admin's is the whole table |
| ApplicationAdmin.Target | applications/admin.py:66-89 | no action writes `pending` or `withdrawn`; only the accept action writes `accepted`, and only the reject action writes `rejected` |
| ApplicationAdmin.BulkStatus | applications/admin.py:66-89 | selected rows get the status and nothing else changes |
| ApplicationAdmin.BulkStatusWritesOnlyStatus | applications/admin.py:66-89 | the submission, the review stamp, `updated_at`, the notes and the reason stay as they were |
| ApplicationAdmin.AcceptedCanBeReopened | applications/admin.py:66-69 | an accepted application can be set back to reviewed, although the withdraw endpoint treats accepted as final |
| ApplicationAdmin.BulkLeavesReviewStamp | applications/admin.py:66-89 | over any table and selection, an action leaves every selected row's `reviewed_at` as it was, where the status endpoint would have stamped a changed status |
| ApplicationAdmin.BulkStatusIdempotent | applications/admin.py:66-89 | running an action twice is running it once |
| ApplicationAdmin.BulkStatusFillsBucket | applications/admin.py:66-89 | every selected application lands in the target status bucket, and the row count is unchanged |
| ApplicationAdmin.BulkStatusKeepsConsistent | applications/admin.py:66-89 | the actions keep the schema invariant |
| ApplicationAdmin.RunApplicationAction | applications/admin.py:66-89 | applies the status to the selected rows and reports the number matched |
| CompanySerializers.CompanyInputValid | companies/models.py:17-27 | decides `is_valid` for a company body over the fields of companies/serializers.py:33-37: a full write sends a name; a sent name is not blank once stripped; a sent size is one of the choices, the blank one included; a sent year is null or within 1800 to the load-time year |
| CompanySerializers.PatchCompany | companies/serializers.py:43-46 | an update stores a sent name stripped and re-derives the slug from it exactly when a name is sent, and never writes `is_verified` or `created_at` |
| CompanySerializers.CreateCompanyRecord | companies/serializers.py:39-41 | a created company stores its stripped name, takes its slug from it, and starts unverified |
| CompanySerializers.CreateIsPatchOfDefaults | companies/serializers.py:39-46 | creating is updating the default instance with the body |
| CompanySerializers.PatchCompanyIdempotent | companies/serializers.py:43-46 | the same update twice is the update once, and the empty body changes only `updated_at` |
| CompanySerializers.ValidPatchKeepsModelRules | companies/models.py:23-27 | a valid body stores a valid size choice, a founding year within the validators and a non-blank name |
| CompanySerializers.PartialIsWeaker | companies/serializers.py:33-37 | a valid full body is a valid partial body; the empty body is valid only as a partial one |
| CompanySerializers.BlankNameRefused | companies/models.py:17 | a name made only of whitespace is refused |
| CompanySerializers.FoundedYearOutOfRangeRefused | companies/models.py:24-27 | a year before 1800 or after the load-time year is refused |
| CompanyViews.CompanyRights | companies/views.py:52-101 | no role may both update and delete; the roles that may create are exactly those that may update or delete; job seekers may do none |
| CompanyViews.CompanyOrder | companies/views.py:38 | every company once, sorted by name |
| CompanyViews.CompanyList | companies/views.py:29-38 | one row per company, in name order |
| CompanyViews.Annotate | companies/views.py:29-31 | each row carries the company's active-job count |
| CompanyViews.CompanyListHasEvery | companies/views.py:29-38 | every company appears in the list |
| CompanyViews.CompanyListRows | companies/views.py:29-38 | the rows are in name order, and each count is the company's active-job count, bounded by its job count |
| CompanyViews.DeactivateLowersActiveCount | companies/views.py:29-31 | deactivating jobs removes exactly them from every company's annotation |
| CompanyViews.ActivateRaisesActiveCount | companies/views.py:29-31 | activating jobs adds exactly the selected jobs of that company to its annotation |
| CompanyViews.CompanyWithSlug | companies/views.py:70 | the company the slug lookup finds has that slug |
| CompanyViews.RetrieveCompany | companies/views.py:64-70 | a result exists exactly when the slug exists, and it is that company |
| CompanyViews.RetrieveCompanyCount | companies/views.py:65-67 | the detail returns the company with its active-job count |
| CompanyViews.CreateCompanyDecision | companies/views.py:46-56 | decides the company create: 400 for an invalid body, then 403 for a job seeker, then a conflict for a taken slug, otherwise the next id |
| CompanyViews.CreatedCompanyFacts | companies/views.py:52-56 | a created company was created by an admin or an employer and is unverified; a slug already in use is a conflict |
| CompanyViews.CreateCompany | companies/views.py:46-56 | follows the create decision; on success the company is stored under the next id |
| CompanyViews.UpdateCompanyDecision | companies/views.py:86-96 | decides the company update: 404 for an unknown slug, then 400, then 403 for a caller who is not an employer, then a conflict for another company's slug, otherwise that company |
| CompanyViews.UpdatedCompanyFacts | companies/views.py:93-96 | only employers update, any employer gets the same answer as any other (no ownership check), and verification is never written |
| CompanyViews.UpdateCompany | companies/views.py:86-96 | follows the update decision; on success only that company is rewritten |
| CompanyViews.DeleteCompanyDecision | companies/views.py:98-101 | decides the company delete: 404 for an unknown slug, then 403 for a non-admin, otherwise that company |
| CompanyViews.DeletedCompanyFacts | companies/views.py:98-101 | only admins delete, and afterwards no job of the company remains and every application still has its job |
| CompanyViews.DeleteCompanyView | companies/views.py:98-101 | follows the delete decision; on success the company and its jobs and their applications are removed |

## Left out

- Validation of URLs, emails, `max_length` and the choice fields of jobs (job type, experience level,
  remote type, salary type) is not modelled. Those columns are free text or enums here.
- The `SearchFilter` and `OrderingFilter` backends are not modelled. Only `JobFilter` and the
  default orderings of the job, category and company lists are.
- The application lists (`ApplicationListView`, `MyApplicationsView`) are modelled as sets of rows
  (`ApplicationViews.ManagedScope`, `ApplicationViews.VisibleScope`, `ApplicationViews.OwnApplications`).
  Their `-applied_at` order (applications/views.py:49 and 128, applications/models.py:50) is not
  modelled, and neither are their filtersets: `status` and `job` for `ApplicationListView`
  (applications/views.py:46), `status` for `MyApplicationsView` (applications/views.py:126).
- Database collation is not modelled: text is ordered by code point. Rows that tie on every
  ordering column come in one fixed but unspecified order, which stands for the database's choice.
- Whitespace and case folding are ASCII; Unicode `str.strip` and `lower` are not modelled. The
  whitespace the serializers strip from text fields is ASCII whitespace for the same reason.
- AuthModels.PhoneMatchesShape: reads `\d` as an ASCII digit and `$` as the end of the string.
  Python's `\d` also matches other Unicode decimal digits, such as Arabic-Indic ones, and its `$` also
  matches before a final `"\n"`. Those strings are not modelled.
- AuthModels.PhoneMatches: decides the regex over the same reading, with `\d` an ASCII digit and
  `$` the end of the string. A number written in other Unicode decimal digits, or one followed by a
  final `"\n"`, is refused here although Python's regex accepts it.
- AuthModels.PhoneFieldValid: rests on `AuthModels.PhoneMatches`, so it has the same gap. A phone in
  Unicode digits, or one with a final `"\n"` within 17 characters, passes the source's field but not
  this predicate.
- AuthModels.PhoneMatchFitsColumn: holds for the ASCII reading only. A `+1`, 15 digits and a final
  `"\n"` (18 characters) pass the source's regex but not the 17-character column. Unicode digits are
  not modelled either.
- Salaries and expected salaries are integers, not decimals.
- ApplicationSerializers.ApplicationInput always carries a `job`. A body that omits `job` is
  answered with 400 by the required `PrimaryKeyRelatedField`, before any check the model states;
  that case is not modelled.
- Pagination and the serializers' read-only and nested output fields (the shapes of the
  responses) are not modelled.
- There is no concurrency. In particular, `increment_views` is modelled as an atomic increment,
  although its read-modify-write can lose updates.
- The authentication views, registration and login are not part of this model. Authentication is
  modelled as `caller in users`.
- The admin site's own permission checks, `CategoryAdmin`'s annotation and companies/admin.py
  are not part of this model.
- The clock, `slugify` and the year read when the company model is loaded are parameters.
- The URL configuration is not modelled; the views are modelled as classes. Two routing problems
  therefore do not appear in the model. First, companies/urls.py:9 routes `CompanyDetailView` with
  `<int:pk>`, while the view looks companies up by `slug` (companies/views.py:70). DRF's `get_object`
  then finds no `slug` argument, so every company detail request fails with a 500;
  `CompanyViews.RetrieveCompany` describes only the view class. Second, jobs/urls.py lists the
  `create/`, `featured/`, `recent/` and `stats/` patterns (lines 14-17) before `<slug:slug>/`. A
  job whose slug is one of those words therefore has no reachable detail page, and its views are
  never counted.
- `JobViews.FeaturedJobs` and `JobViews.RecentJobs`: their own contracts state only the bound of
  ten and the filter. That the jobs are the newest, newest first, is stated for `JobViews.NewestTen`
  by `JobViews.NewestTenInOrder` and `JobViews.NewestTenAreNewest`. Which of several jobs with the
  same `created_at` is taken is left unspecified.

## Findings

| source | as written | input that shows it | evidently intended | confidence | as-written member | corrected member |
|---|---|---|---|---|---|---|
| jobs/views.py:38-41 | `CategoryCreateView.perform_create` refuses a non-admin by raising `permissions.PermissionDenied`, which `rest_framework.permissions` does not define, so the refusal is an `AttributeError` | a job seeker posting a valid category: 500 instead of 403, nothing saved | a 403 for a refused role | not executed | JobViews.CreateCategoryRefusalCrashes | JobViews.CreateCategory |
| jobs/views.py:87-90 | `JobCreateView.perform_create` refuses a job seeker with the same undefined `permissions.PermissionDenied` | a job seeker posting a valid job: 500 instead of 403, nothing saved | a 403 for a refused role | not executed | JobViews.CreateJobRefusalCrashes | JobViews.CreateJob |
| jobs/views.py:130-137 | `perform_update` refuses a non-admin who is not the poster with the undefined `permissions.PermissionDenied` | an employer updating another employer's job with a valid body: 500 instead of 403, nothing saved | a 403 for a refused caller | not executed | JobViews.UpdateJobRefusalCrashes | JobViews.UpdateJob |
| jobs/views.py:139-145 | `perform_destroy` refuses a non-admin who is not the poster with the undefined `permissions.PermissionDenied` | an employer deleting another employer's job: 500 instead of 403, nothing deleted | a 403 for a refused caller | not executed | JobViews.DeleteJobRefusalCrashes | JobViews.DeleteJobView |
| applications/views.py:26-29 | `ApplicationCreateView.perform_create` refuses an employer with the undefined `permissions.PermissionDenied` | an employer applying to an open job: 500 instead of 403, nothing saved | a 403 for a refused role | not executed | ApplicationViews.ApplyRefusalCrashes | ApplicationViews.Apply |
| applications/models.py:69-74 | deleting a user removes their applications by the `CASCADE` of applications/models.py:20, which does not call `Application.delete`, so the jobs they applied to keep their old `applications_count` | a job with one application, whose applicant is then deleted: the count stays 1 while the job has no application | every job's `applications_count` equals its number of applications after any deletion | not executed | Store.DeleteUserLeavesStaleCounter | Store.DeleteUserRecountingCounts |

The model's methods use the corrected members of the table above. In every other place where
the documented behaviour and the code differ, the model follows the code:

- `reviewed_at` is stamped on every status change, not only the first one
  (applications/serializers.py:72-73).
- The public job list does not exclude expired jobs (jobs/views.py:70-74).
- The company update checks no ownership and refuses admins (companies/views.py:93-96).
