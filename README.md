# devcamper_api: the bootcamp list query and the aggregate maintainers

This project models two parts of the devcamper REST API, a Node/Express service over MongoDB.
Both models are in Dafny and carry proofs.

1. **The list query of `getBootcamps`** (`controllers/bootcamps.js`). The handler copies
   `req.query` and deletes the directive keys `select`, `sort`, `page` and `limit` from the copy.
   It `JSON.stringify`s the rest and rewrites every whole-word `gt`, `gte`, `lt`, `lte` and `in`
   to its `$` operator.
   - `select` and `sort` become space-separated lists; the sort defaults to `-createdAt`.
   - `page` and `limit` are read with `parseInt(x, 10) || default`.
   - The skip window is `(page - 1) * limit` wide in front, `limit` long.
   - The handler answers with an envelope holding `count`, the `next`/`prev` pagination
     descriptors and the data.
2. **The course and review stores and their aggregate maintainers** (`controllers/courses.js`,
   `models/Course.js`, `models/Review.js`). The course handlers look a course up by id and then
   create, update or remove it.
   - The Course schema validates required fields, the `minimumSkill` enumeration and the
     `scholarshipAvailable` default.
   - After a save and before a remove, `getAverageCost` writes
     `Math.ceil(mean tuition / 10) * 10` onto that course's bootcamp.
   - The Review schema bounds the rating to 1..10 and the title to 100 characters. A unique index
     keeps one review per (bootcamp, user) pair, and `getAverageRating` writes the unrounded mean
     rating onto the bootcamp.

Modules, one per file:

- `common.dfy`: `Option`, `Result`, the failure kinds (404, validation error, duplicate key,
  TypeError) and ids.
- `js_runtime.dfy`: the ECMA-262 pieces used.
  - White space, `String.prototype.trim`, and `length` in UTF-16 code units.
  - `parseInt` with radix 10, `split` and `join`.
- `json.dfy`:
  - the parsed query string: strings, arrays and nested objects, with keys in insertion order;
  - `String(v)`;
  - `JSON.stringify` and its string escaping, with the decoding that undoes it.
- `operator_rewrite.dfy`: the `\b(gt|gte|lt|lte|in)\b` replacement.
  - It works run by run over maximal word runs.
  - It is proved equal to a position-by-position reading of the regular expression.
  - It has a proved inverse.
- `query_planner.dfy`: the query plan and the window.
  - Key stripping is a loop that deletes keys from a copy.
  - Also: the filter text, the select and sort directives, page and limit, the window, and the
    pagination descriptors filled in field by field.
- `aggregates.dfy`: `$avg` over exact reals, and `Math.ceil(x / 10) * 10`.
- `course_model.dfy`, `review_model.dfy`: the schemas, document creation and update, and the
  values the two statics compute.
- `store.dfy`: the three collections as sequences inside a `Database` class.
  - Lookup by id, and `findByIdAndUpdate` on bootcamps.
  - Each handler and hook is a method that modifies the database and keeps an invariant `Valid()`:
    - ids are unique and fresh;
    - every stored course and review passed its schema;
    - the unique index holds;
    - every written average cost is a multiple of ten;
    - every written average rating lies in 1..10.

Behaviours of the code worth noting:

- `total` (line 54 of `controllers/bootcamps.js`) is `countDocuments()` with no filter. It counts
  every stored bootcamp, not only the matching ones. `GetBootcamps` passes the number of all
  stored bootcamps to the pagination.
- `parseInt(x, 10) || d` falls back to the default only for NaN and 0. A negative `page` or
  `limit` passes through unchanged (`PageAndLimitDefaults`, `PageOfDecimal`).
- `updateCourse` uses `findByIdAndUpdate`, which fires no `save` hook, so an update does not
  recompute the average cost. `deleteBootcamp` uses `findByIdAndDelete` and removes no courses
  or reviews.

## Model

| member | source | states |
|---|---|---|
| JsRuntime.TrimStart | models/Course.js:6 | the leading white space, and only it, is dropped: the result is a suffix that does not start with white space |
| JsRuntime.TrimEnd | models/Course.js:6 | the trailing white space, and only it, is dropped: the result is a prefix that does not end with white space |
| JsRuntime.Trim | models/Course.js:6 | the `trim` setter: TrimStart followed by TrimEnd; its properties are stated by TrimCharacterised and TrimIdempotent |
| JsRuntime.TrimCharacterised | models/Course.js:4-8 | `trim` returns a string with no white space at either end, and leaves a string unchanged exactly when it has none |
| JsRuntime.TrimIdempotent | models/Review.js:4-9 | trimming twice is trimming once, so a stored title passes the setter unchanged |
| JsRuntime.Utf16Length | models/Review.js:8 | `maxlength` counts UTF-16 units: between one and two per character, and exactly one per character for text without characters above U+FFFF; the exact count is stated by Utf16LengthChar and Utf16LengthAppend |
| JsRuntime.Utf16LengthChar | models/Review.js:8 | a character counts one unit, or two (a surrogate pair) when it lies above U+FFFF |
| JsRuntime.Utf16LengthAppend | models/Review.js:8 | the unit count of a concatenation is the sum of the counts, so with Utf16LengthChar it fixes the count of every string |
| JsRuntime.Utf16LengthAstral | models/Review.js:8 | a string made only of characters above U+FFFF counts two units per character |
| JsRuntime.LeadingDigits | controllers/bootcamps.js:50-51 | the length of the longest digit prefix parseInt consumes |
| JsRuntime.ParseInt | controllers/bootcamps.js:50-51 | `parseInt(x, 10)`: skips leading white space, reads an optional sign and the longest digit run, NaN without digits; its properties are stated by ParseIntReadsDecimal and ParseIntNaN |
| JsRuntime.ParseIntReadsDecimal | controllers/bootcamps.js:50-51 | parseInt(x, 10) reads back any decimal integer of magnitude at most 2^53, negative ones included, after any leading white space and before any non-digit tail |
| JsRuntime.ParseIntNaN | controllers/bootcamps.js:50-51 | parseInt yields NaN exactly when no digit follows the leading white space and the optional sign |
| JsRuntime.Split | controllers/bootcamps.js:37 | `split(',')` gives at least one piece and no piece contains the separator |
| JsRuntime.ReplaceChar | controllers/bootcamps.js:37 | the reference the split/join pair is compared with: same length, each separator replaced, every other character kept |
| JsRuntime.SplitJoinReplaces | controllers/bootcamps.js:37 | `split(sep).join(glue)` equals replacing every `sep` by `glue` |
| JsRuntime.SplitJoinRoundTrip | controllers/bootcamps.js:43 | splitting and joining on the same character gives the text back |
| Json.Lookup | controllers/bootcamps.js:36 | a property lookup finds a value exactly when a property of that name exists; LookupFound and LookupFirst say which value |
| Json.LookupFound | controllers/bootcamps.js:36-51 | a found value is the value of the first property with the key |
| Json.LookupFirst | controllers/bootcamps.js:36-51 | the value of the first property with the key is what `req.query[key]` gives |
| Json.Stringify | controllers/bootcamps.js:24 | `JSON.stringify` of the query object: strings quoted and escaped, arrays and objects in insertion order; the escaping is proved invertible by UnescapeEscapeChars |
| Json.UnescapeEscapeChars | controllers/bootcamps.js:24 | the escaping `JSON.stringify` applies to string contents is undone by JSON decoding, so no text is lost in the filter text |
| OperatorRewrite.WordRun | controllers/bootcamps.js:27 | the run of word characters at the front is maximal: all word characters, followed by a non-word character or the end |
| OperatorRewrite.RewriteOperators | controllers/bootcamps.js:27-30 | the operator rewrite, run by run; its properties are stated by RewriteIsRegexReplace, RestoreRewrite, RewriteLength and RewriteIdempotentIff |
| OperatorRewrite.RewriteIsRegexReplace | controllers/bootcamps.js:27-30 | the run-by-run rewrite equals inserting `$` at every position where the regular expression matches: a word boundary, then `gt`, `gte`, `lt`, `lte` or `in`, then a word boundary |
| OperatorRewrite.RestoreRewrite | controllers/bootcamps.js:27-30 | deleting exactly the inserted `$` signs gives the input back |
| OperatorRewrite.RewriteLength | controllers/bootcamps.js:27-30 | the output is longer than the input by the number of operator words |
| OperatorRewrite.RewriteKeepsOperatorCount | controllers/bootcamps.js:27-30 | the rewritten text still holds the same number of operator words |
| OperatorRewrite.RewriteIdempotentIff | controllers/bootcamps.js:27-30 | rewriting twice equals rewriting once exactly when the text holds no operator word |
| OperatorRewrite.RewriteNotIdempotent | controllers/bootcamps.js:27-30 | `gt` becomes `$gt`, and `$gt` becomes `$$gt` |
| QueryPlanner.WithoutKeys | controllers/bootcamps.js:19-21 | no remaining property has a removed key, and every property with another key is kept |
| QueryPlanner.WithoutKeysTwice | controllers/bootcamps.js:19-21 | deleting one list of keys and then another equals deleting both lists at once |
| QueryPlanner.LookupWithoutKeys | controllers/bootcamps.js:13-21 | after the deletion, a removed key is absent and every other key has its original value |
| QueryPlanner.StripReserved | controllers/bootcamps.js:13-21 | the loop that deletes `select`, `sort`, `page` and `limit` one by one yields the query without those four keys |
| QueryPlanner.FilterIgnoresDirective | controllers/bootcamps.js:13-30 | adding a directive key to the query leaves the filter text unchanged |
| QueryPlanner.FilterText | controllers/bootcamps.js:24-30 | the stringified, rewritten filter; FilterIgnoresDirective and PlanDefaults state which properties reach it |
| QueryPlanner.SelectDirective | controllers/bootcamps.js:36-39 | the projection; stated by SelectDirectiveAbsent, SelectDirectiveGiven and DirectivesThrow |
| QueryPlanner.SortDirective | controllers/bootcamps.js:42-47 | the sort; stated by SortDirectiveDefault, SortDirectiveGiven and DirectivesThrow |
| QueryPlanner.SelectDirectiveAbsent | controllers/bootcamps.js:36 | an absent or empty `select` selects nothing |
| QueryPlanner.SelectDirectiveGiven | controllers/bootcamps.js:36-38 | a non-empty `select` is used with each comma turned into a space and every other character kept |
| QueryPlanner.DirectivesThrow | controllers/bootcamps.js:36-47 | `select` and `sort` throw a TypeError exactly when present but not a string (an array or object has no `split`) |
| QueryPlanner.CommaListToSpacesPointwise | controllers/bootcamps.js:36-47 | the select and sort lists keep their length and differ from the input only where `,` became a space |
| QueryPlanner.SortDirectiveDefault | controllers/bootcamps.js:42-47 | an absent or empty `sort` gives exactly `-createdAt` |
| QueryPlanner.SortDirectiveGiven | controllers/bootcamps.js:42-44 | a non-empty `sort` is used with each comma turned into a space |
| QueryPlanner.PageAndLimitDefaults | controllers/bootcamps.js:50-51 | page is 1 and limit is 25 exactly when parseInt gives NaN or 0; any other value, a negative one included, is used as is; neither is ever 0 |
| QueryPlanner.PageOf | controllers/bootcamps.js:50 | `parseInt(page, 10)`, or 1 when that is NaN or 0; stated by PageAndLimitDefaults, PageOfDecimal and PageAndLimitFallBack |
| QueryPlanner.LimitOf | controllers/bootcamps.js:51 | `parseInt(limit, 10)`, or 25 when that is NaN or 0; stated by the same three lemmas |
| QueryPlanner.PageOfDecimal | controllers/bootcamps.js:50-51 | a decimal parameter n with |n| <= 2^53 gives n, except that 0 gives the default; `-5` stays `-5` |
| QueryPlanner.PageAndLimitFallBack | controllers/bootcamps.js:50-51 | an absent parameter (read as `undefined`) and `abc` both give page 1 and limit 25 |
| QueryPlanner.WindowWidth | controllers/bootcamps.js:52-56 | `endIndex - startIndex == limit`, and the next page's window starts where this one ends |
| QueryPlanner.PaginationOf | controllers/bootcamps.js:62-78 | the `next`/`prev` descriptors; FillPagination proves the field-by-field fill equal to it, and LastPage and PaginationPositive say where next and prev appear |
| QueryPlanner.FillPagination | controllers/bootcamps.js:62-78 | the field-by-field fill gives `next = {page+1, limit}` when `page*limit < total`, and `prev = {page-1, limit}` when `(page-1)*limit > 0` |
| QueryPlanner.LastPage | controllers/bootcamps.js:62-78 | the number of pages needed to hold `total` documents: its window reaches `total`, and the page before it does not |
| QueryPlanner.PaginationPositive | controllers/bootcamps.js:62-78 | for a positive page and limit, `next` is present exactly before the last page and `prev` exactly after the first |
| QueryPlanner.PaginationThirtyByTwentyFive | controllers/bootcamps.js:62-78 | with 30 documents and pages of 25, page 1 has only `next = {2, 25}` and page 2 only `prev = {1, 25}` |
| QueryPlanner.PlanDefaults | controllers/bootcamps.js:13-56 | a query without directive keys is the whole filter, with no projection, sort `-createdAt`, skip 0 and limit 25 |
| QueryPlanner.PlanOf | controllers/bootcamps.js:13-56 | the plan `getBootcamps` builds; stated by PlanOfFails, PlanDefaults, PlanOfParts and FilterIgnoresDirective |
| QueryPlanner.PlanOfFails | controllers/bootcamps.js:36-47 | the handler throws a TypeError before reading the store exactly when `select` or `sort` is present but not a string |
| QueryPlanner.PlanOfParts | controllers/bootcamps.js:13-56 | once both directives are parsed, the plan is the filter without the directive keys, the projection, the sort and the window of the requested page |
| Aggregates.MeanWithin | models/Review.js:50 | the `$avg` of values that all lie in [lo, hi] lies in [lo, hi] |
| Aggregates.CeilToTen | models/Course.js:65 | `Math.ceil(x / 10) * 10` is a multiple of 10, at least x and below x + 10 |
| CourseModel.ParseSkill | models/Course.js:21-25 | the enum validator accepts exactly `beginner`, `intermediate` and `advanced` |
| CourseModel.CreateCourse | models/Course.js:3-44 | creation succeeds exactly when the required fields are present (a title not blank after trimming) and the skill is in the enum; the stored course holds the trimmed title, the given description, weeks, tuition, parsed skill, bootcamp and user, `scholarshipAvailable` defaults to false and `createdAt` to now |
| CourseModel.UpdateCourseDoc | controllers/courses.js:80-83 | an update with validators succeeds exactly when every field it sets passes its validator; each field the body sets takes the given value (the title trimmed, the skill parsed), each other field keeps its old value, `createdAt` is overwritten only when the body sets it, the id is kept, and a valid course stays valid |
| CourseModel.ApplyCourseBody | controllers/courses.js:80 | the fields the update body sets, written over the stored course; its effect field by field is stated by UpdateCourseDoc |
| CourseModel.UpdateWithEmptyBody | controllers/courses.js:80-83 | an empty update body leaves the course as it was |
| CourseModel.Tuitions | models/Course.js:49-53 | the `$match` stage is empty exactly when no course belongs to the bootcamp |
| CourseModel.AverageCost | models/Course.js:47-69 | the written cost is a multiple of 10, at least the mean tuition of the bootcamp's courses and below it plus 10; none is written when the bootcamp has no course |
| CourseModel.AverageCostIgnoresOthers | models/Course.js:52 | a course of another bootcamp does not change this bootcamp's average cost |
| CourseModel.AverageCostAfterSave | models/Course.js:72-75 | the recomputation after a save includes the saved course's tuition |
| CourseModel.AverageCostExample | models/Course.js:47-66 | tuitions of 100, 200 and 300 give an average cost of 200 |
| ReviewModel.CreateReview | models/Review.js:3-34 | creation succeeds exactly when the trimmed title is non-empty and at most 100 UTF-16 units, the text is present and the rating lies in 1..10; the stored review is valid and holds the trimmed title, the given text and rating, the bootcamp and the user, and `createdAt` defaults to now |
| ReviewModel.RatingOutOfRangeRefused | models/Review.js:14-19 | a rating below 1 or above 10 is refused |
| ReviewModel.TitleTooLongRefused | models/Review.js:4-9 | a title of 101 characters is refused |
| ReviewModel.AstralTitleTooLongRefused | models/Review.js:4-9 | a title of 51 emoji is 102 UTF-16 units and is refused, although it holds only 51 characters |
| ReviewModel.UniquePairsAppend | models/Review.js:37 | adding a review keeps the (bootcamp, user) index satisfied exactly when no stored review has its pair |
| ReviewModel.UniquePairsRemove | models/Review.js:37 | removing a review keeps the index satisfied |
| ReviewModel.Ratings | models/Review.js:42-53 | the `$match` stage is empty exactly when no review belongs to the bootcamp |
| ReviewModel.AverageRating | models/Review.js:40-61 | a rating average exists exactly when the bootcamp has a review |
| ReviewModel.AverageRatingInRange | models/Review.js:14-19 | when every stored review is valid, every average rating written lies in [1, 10] |
| ReviewModel.AverageRatingIgnoresOthers | models/Review.js:45 | a review of another bootcamp does not change this bootcamp's average rating |
| ReviewModel.AverageRatingAfterSave | models/Review.js:64-67 | the recomputation after a save includes the saved review's rating |
| ReviewModel.AverageRatingExample | models/Review.js:47-58 | ratings 7 and 8 give 7.5: the mean is written unrounded |
| Store.IndexOf | controllers/courses.js:72 | `findById` finds the first position holding the id, and finds nothing exactly when the id is absent |
| Store.FindBootcamp | controllers/bootcamps.js:92 | a found bootcamp is stored and has the id; nothing is found exactly when no bootcamp has it |
| Store.FindCourse | controllers/courses.js:95 | a found course is stored and has the id; nothing is found exactly when no course has it |
| Store.UpdateById | models/Course.js:64-66 | `findByIdAndUpdate` changes only the bootcamp with the id; it keeps every id, the order and every other bootcamp |
| Store.FindAfterUpdate | controllers/bootcamps.js:121-124 | after an update by id, looking up that id finds the bootcamp with the update applied, and any other id finds what it found before |
| Store.RecomputedCostEffect | models/Course.js:62-69 | the recomputation changes only the `averageCost` of that bootcamp, and nothing when the bootcamp has no course |
| Store.RecomputedRatingEffect | models/Review.js:55-61 | the recomputation changes only the `averageRating` of that bootcamp, and nothing when the bootcamp has no review |
| Store.RecomputedCost | models/Course.js:47-70 | the bootcamps after `getAverageCost`; stated by RecomputedCostEffect and WriteAverageCost |
| Store.RecomputedRating | models/Review.js:40-62 | the bootcamps after `getAverageRating`; stated by RecomputedRatingEffect and WriteAverageRating |
| Store.CoursesOf | controllers/courses.js:12 | the result holds exactly the stored courses of the bootcamp |
| Store.CoursesOfAppend | controllers/courses.js:12 | the filter distributes over concatenation, so it keeps store order |
| Store.RemoveCourseExactly | controllers/courses.js:103 | when ids are unique, removal drops exactly the course with the id and keeps every other course |
| Store.Database.GetBootcamps | controllers/bootcamps.js:9-86 | a `select` or `sort` that is not a string gives a type error; otherwise the handler fails exactly when the store's evaluation of the plan fails, with that error, and on success data is the store's answer, count is its length, and the pagination is computed against all stored bootcamps |
| Store.Database.GetBootcamp | controllers/bootcamps.js:91-103 | 404 exactly when no bootcamp has the id; otherwise a stored bootcamp with that id |
| Store.Database.CreateBootcamp | controllers/bootcamps.js:108-115 | the new bootcamp gets a fresh id and no averages, and is appended; the invariant is kept |
| Store.Database.UpdateBootcamp | controllers/bootcamps.js:120-133 | 404 and no change for an unknown id; otherwise the body's fields are merged into that bootcamp only |
| Store.Database.DeleteBootcamp | controllers/bootcamps.js:138-148 | 404 and no change for an unknown id; otherwise exactly that bootcamp is removed and its courses and reviews stay |
| Store.Database.WriteAverageCost | models/Course.js:47-70 | the bootcamps become the recomputed ones; courses and reviews stay as they were; the invariant is kept |
| Store.Database.WriteAverageRating | models/Review.js:40-62 | the bootcamps become the recomputed ones; the invariant is kept, because a mean of valid ratings lies in 1..10 |
| Store.Database.GetCourses | controllers/courses.js:10-18 | the data is exactly the bootcamp's courses in store order, and count is its length |
| Store.Database.GetCourse | controllers/courses.js:27-43 | 404 exactly when no course has the id; otherwise a stored course with that id |
| Store.Database.AddCourse | controllers/courses.js:48-66 | the route's bootcamp id overrides the body's. A missing bootcamp gives 404 and a refused body a validation error, both with no change. Otherwise exactly one course is appended and the post-save hook recomputes the bootcamp's average cost |
| Store.Database.SaveCourse | models/Course.js:72-75 | saving a new, valid course appends it, advances the id counter and sets the bootcamp's average cost to the value recomputed over the courses including the new one, keeping the store's invariants |
| Store.Database.UpdateCourse | controllers/courses.js:71-89 | 404 and no change for an unknown id; a refused body changes nothing; otherwise only that course is replaced, by the old course with each field the body sets overwritten, and no average is recomputed |
| Store.Database.DeleteCourse | controllers/courses.js:94-109 | 404 and no change for an unknown id. Otherwise the average cost is recomputed over the courses still including this one, and then exactly this course is removed |
| Store.Database.SaveReview | models/Review.js:3-67 | a refused body gives a validation error and a repeated (bootcamp, user) pair a duplicate key, both with no change. Otherwise the review is appended and the post-save hook recomputes the average rating |
| Store.Database.InsertReview | models/Review.js:65-68 | inserting a new, valid review whose (bootcamp, user) pair is new appends it and sets the bootcamp's average rating to the mean recomputed over the reviews including it, keeping the unique index and the other invariants |
| Store.Database.RemoveReview | models/Review.js:69-72 | the model's delete path: the 404 lookup mirrors `deleteCourse`, since the file holds only the pre-remove hook. 404 and no change for an unknown id. Otherwise the average rating is recomputed over the reviews still including this one, and then the review is removed |

## Left out

- `getBootcampsInRadius`, the routes and `server.js`: the radius search calls an external geocoder
  and computes with floating point; the routes and server file only wire middleware and connect.
- `JSON.parse` of the filter text and MongoDB's reading of it: `$gte`/`$in`, the sort collation,
  the projection, and the skip and limit of a negative window. `GetBootcamps` takes the store's
  evaluation of the plan as the parameter `execute`, which may fail (MongoDB refuses a negative
  skip); the handler then answers with that error.
- `JSON.stringify` moving integer-like keys ahead of the other keys: query objects are taken to
  keep plain insertion order.
- `getCourses` without a bootcamp id answers with `res.advancedResults` from a middleware that
  is not part of this model.
- `asyncHandler`, `ErrorResponse`, `protect` and `authorize`: failures become `Result` errors,
  and authentication is not modelled.
- Asynchrony: the hooks start the recomputation without awaiting it. The model runs it as a
  sequential step at the hook point, so the race between concurrent writers is not captured.
- JavaScript doubles: tuitions, ratings and averages are exact reals, so `$avg` and `Math.ceil`
  are exact here.
- JsRuntime.ParseInt: the result is an exact integer of any size; `parseInt` rounds a value beyond
  2^53 to the nearest double and gives Infinity for very long digit runs, which is not modelled.
- JsRuntime.ParseIntReadsDecimal: stated only for |n| <= 2^53, where a JavaScript number holds
  the integer exactly.
- QueryPlanner.PageOfDecimal: stated only for |n| <= 2^53, for the same reason.
- Mongoose casting and id formats: body values arrive already typed, and a malformed id (a
  CastError) is not modelled; ids are natural numbers drawn from one counter.
- `models/Bootcamp.js` is not part of this model. A bootcamp's fields are a string map, with no
  validators, geocoding or slug.
- Store.Database.CreateBootcamp: the request body cannot set `averageCost` or `averageRating`;
  in the code, a body could write them directly.
- Store.Database.UpdateBootcamp: likewise, the body is merged into the fields only and cannot
  overwrite the two averages.
- Store.Database.GetCourse: the `populate` of the bootcamp's name and description is left out.
- `console.error` of the swallowed TypeError: the failure is modelled, the log line is not.
