# Mock-exam paper generator of test-prep, in Dafny

test-prep is a French civic-test revision app. Its one piece of selection logic is
`generateExamPaper` in `src/utils/examGenerator.js`. This project models it. The
generator builds a mock exam paper of at most 40 questions, exactly 40 when the pools hold
enough, from two pools: knowledge
questions and situational questions. It follows a static blueprint that gives, for
each exam type (`CSP`, `CR`), an ordered list of categories. Each category has a
number of knowledge and a number of situational questions to pick.

For each category, the generator works in this order:

- It picks up to the situational count from that category's situational questions.
- It raises the knowledge quota by the situational shortfall.
- It picks up to that quota from the category's knowledge questions.

If the paper is still short of 40, it tops up from unused knowledge questions of
the exam type. Finally it shuffles the paper and cuts it at 40.

Files:

- `sequences.dfy` (module `Sequences`) models the JavaScript built-ins the
  generator uses: `filter` is `Filter` and `slice(0, n)` is `Take`. It also holds
  generic facts about them: how filtering treats multiplicities, and why
  "no two elements share an id" survives a permutation or a selection.
- `exam_generator.dfy` (module `ExamGenerator`) holds the data model, the
  blueprint, `Shuffle`, the per-category step `AddCategory`, the push loops and
  `GenerateExamPaper`. It also holds the counting and uniqueness lemmas.

How the model is built:

- **Data.** A question is `Question(id, moduleId, examType)`. The `question_form`
  tag is `Form` (`Knowledge` or `Situation`). A question on a paper is
  `ExamQuestion(question, form)`. Ids are modelled as integers.
- **Randomness.** `Math.random` is nondeterministic choice. `Shuffle` runs the same
  descending Fisher–Yates loop over an array copy. Its swap index is any `j` with
  `0 <= j <= i`. Every property below holds for every outcome of every shuffle.
- **Ghost results.** `GenerateExamPaper` returns the paper as
  `Result<seq<ExamQuestion>>`. An unknown exam type gives `Err(UnknownExamType(..))`,
  which models the `throw`. The method also has two ghost results that record what
  the run chose: `picks[j]` is the situational and knowledge questions of the j-th
  blueprint category, and `extra` is the fallback's questions. Its postcondition
  states the following.
  - Each `picks[j]` fits the counting rules (`PickFits`). There are
    `min(situation, |category's situational questions|)` situational picks. There
    are `min(knowledge + max(0, situation - picked), |category's knowledge questions|)`
    knowledge picks. Each pick is a sub-multiset of that category's part of the
    right pool.
  - `extra` fits the fallback rule (`FallbackFits`). It is empty unless fewer than
    40 were collected. Otherwise it has `min(40 - collected, |fallback pool|)`
    questions of that pool. The pool is the knowledge questions of the exam type
    whose id is not used yet.
  - The paper is a permutation of the collected questions, tagged by form, followed
    by `extra` tagged `Knowledge`. The proof shows that the truncation to 40 never
    drops a question with the shipped blueprint, because the categories never
    collect more than 40.
  - The paper has at most 40 questions.
  - If no id occurs twice across the two pools, no id occurs twice on the paper.
  - If every category has enough questions of both forms, the paper has exactly 40
    questions, and each category has exactly the blueprint's number of questions
    of each form.

## Model

| member | source | states |
|---|---|---|
| `ExamGenerator.BlueprintTotals` | src/utils/examGenerator.js:2-21 | every exam type of the blueprint asks for 28 knowledge and 12 situational questions, 40 in all |
| `ExamGenerator.BlueprintCategoriesDistinct` | src/utils/examGenerator.js:6-21 | no exam type lists a category twice |
| `ExamGenerator.Shuffle` | src/utils/examGenerator.js:23-30 | the result has the argument's length and the same multiset of elements, whatever index each step picks in `[0, i]` |
| `Sequences.Filter` | src/utils/examGenerator.js:43-44 | `filter` keeps exactly the elements that satisfy the predicate: every result element is in the input and satisfies it, and every such input element is in the result |
| `Sequences.Take` | src/utils/examGenerator.js:47 | `slice(0, n)` returns the first `min(n, length)` elements, a prefix and a sub-multiset of its input |
| `Sequences.Max` | src/utils/examGenerator.js:55 | `Math.max` on integers (a definition, no contract) |
| `Sequences.FilterMultiplicity` | src/utils/examGenerator.js:43-44 | filtering keeps every copy of a kept element and no copy of a dropped one |
| `Sequences.FilterPermutation` | src/utils/examGenerator.js:73 | two permutations of each other filter to permutations of each other, so the final shuffle preserves every per-category, per-form count |
| `Sequences.DistinctBySub` | src/utils/examGenerator.js:73 | distinct ids survive a permutation followed by a truncation |
| `ExamGenerator.InCategory` | src/utils/examGenerator.js:43-44 | the per-category filter predicate: a question is kept exactly when its `module_id` is the target's category (a definition, no contract) |
| `ExamGenerator.FallbackEligible` | src/utils/examGenerator.js:66 | the fallback's filter predicate: a question is kept exactly when its `exam_type` is the requested one and its id is not in `usedIds` (a definition, no contract) |
| `ExamGenerator.FallbackPool` | src/utils/examGenerator.js:66 | a question is a fallback candidate exactly when it is in the knowledge pool, has the exam type and has an id not on the collected paper; the candidates are a sub-multiset of the knowledge pool |
| `ExamGenerator.Tag` | src/utils/examGenerator.js:49 | copying each question with its `question_form` set keeps the length, and the block holds exactly the copies: an entry is in it if and only if its question is one of the block's and its form is the given one |
| `ExamGenerator.IdsOf` | src/utils/examGenerator.js:40 | the set of ids on a paper, the contents `usedIds` is proved to have (a definition, no contract) |
| `ExamGenerator.IdSetIsIdsOfTag` | src/utils/examGenerator.js:50 | the ids of a list of questions are the ids on its tagged block, whatever the form, so `usedIds.add(q.id)` over the picks adds exactly the ids that the push put on the paper |
| `ExamGenerator.Collected` | src/utils/examGenerator.js:42-62 | the paper the blueprint loop builds: the steps' blocks in blueprint order, each block its situational picks tagged `situation` followed by its knowledge picks tagged `knowledge` (a definition, no contract) |
| `ExamGenerator.SitCount` | src/utils/examGenerator.js:47 | the number of situational picks is at most the target's situational count and at most the category's situational questions, and equals one of the two |
| `ExamGenerator.KnowledgeQuota` | src/utils/examGenerator.js:54-55 | the knowledge quota is at least the target's knowledge count, and exceeds it by exactly the situational shortfall (so `Math.max(0, ...)` never clamps) |
| `ExamGenerator.KnowCount` | src/utils/examGenerator.js:57 | the number of knowledge picks is at most the quota and at most the category's knowledge questions, and equals one of the two |
| `ExamGenerator.PickFits` | src/utils/examGenerator.js:43-57 | what one category step may pick: `SitCount` situational and `KnowCount` knowledge questions, each a sub-multiset of that category's part of its pool (a definition, no contract) |
| `ExamGenerator.FallbackFits` | src/utils/examGenerator.js:64-67 | what the fallback may add: nothing at 40 or more collected, else `min(40 - collected, candidates)` questions forming a sub-multiset of `FallbackPool` (a definition, no contract) |
| `ExamGenerator.PushAll` | src/utils/examGenerator.js:48-51 | pushing the picks appends each one, tagged with the form and in order, and adds exactly their ids to `usedIds` |
| `ExamGenerator.PushTagged` | src/utils/examGenerator.js:68-70 | the fallback push appends each extra question tagged `knowledge`, in order, and leaves `usedIds` untouched |
| `ExamGenerator.IdsOfAppend` | src/utils/examGenerator.js:50-60 | after a push, `usedIds` is still exactly the set of ids on the paper |
| `ExamGenerator.AddCategory` | src/utils/examGenerator.js:42-62 | one category step picks as many situational and knowledge questions as the counting rules say, each from that category's part of its pool. It appends them tagged `situation` and then `knowledge`, and records their ids. It keeps the paper's ids distinct when the pool ids are unique and the paper holds only other categories' pool questions |
| `ExamGenerator.CategoryWithinTarget` | src/utils/examGenerator.js:47-57 | at most `situation` situational picks. The knowledge quota is `knowledge` plus the shortfall. The shortfall is zero exactly when the category has enough situational questions. A category never exceeds `knowledge + situation`, and it meets that total exactly when its knowledge questions cover the quota |
| `ExamGenerator.PickFromCategory` | src/utils/examGenerator.js:43-57 | situational picks come from the situational pool, knowledge picks from the knowledge pool, and all have the category's `module_id` |
| `ExamGenerator.CollectedSize` | src/utils/examGenerator.js:42-62 | the category steps together collect at most the blueprint's total, and exactly that total when every category has enough questions |
| `ExamGenerator.CountCollected` | src/utils/examGenerator.js:42-62 | when the blueprint lists no category twice, the situational questions of the j-th step's category on the collected paper are exactly that step's situational picks, tagged and in pick order; likewise for its knowledge questions. So their counts are the numbers of picks |
| `ExamGenerator.CountAbsent` | src/utils/examGenerator.js:42-62 | a category that no step handled has no question of either form on the collected paper: filtering the paper by it gives the empty list |
| `ExamGenerator.ValidPicksInOwnCategory` | src/utils/examGenerator.js:43-44 | every question a step picks carries that step's category as its `module_id` |
| `ExamGenerator.CollectCategories` | src/utils/examGenerator.js:39-62 | the `forEach` over the blueprint runs one step per category, in order. Each step's picks follow the counting rules. The paper is the steps' blocks concatenated, and `usedIds` is exactly the set of ids on it. With unique pool ids and distinct categories, no id occurs twice |
| `ExamGenerator.PaperFromCollected` | src/utils/examGenerator.js:64-73 | any permutation of the collected questions plus the fallback has at most 40 questions. It keeps ids distinct when pool ids are unique. With ample supply it has exactly 40, with the blueprint's per-category, per-form counts |
| `ExamGenerator.AmplePicksMatchBlueprint` | src/utils/examGenerator.js:47-57 | when every category has enough questions of both forms, each step picks exactly the blueprint's numbers |
| `ExamGenerator.FallbackDraws` | src/utils/examGenerator.js:65-70 | the fallback adds nothing at 40 or more and never goes past 40. It draws only knowledge-pool questions of the exam type whose ids are unused. With unique pool ids, it draws no situational question and no id twice |
| `ExamGenerator.UniqueIdsOfPicks` | src/utils/examGenerator.js:43-61 | with unique pool ids, a category's picks have distinct ids. They differ between the two forms and from every id already on a paper of other categories |
| `ExamGenerator.AppendDistinct` | src/utils/examGenerator.js:48-50 | appending questions with distinct, unused ids keeps the paper's ids distinct |
| `ExamGenerator.GenerateExamPaper` | src/utils/examGenerator.js:35-74 | an error exactly for an unknown exam type. Otherwise each category step follows the counting rules and the fallback follows its rule. The paper is a permutation of everything collected, at most 40 long. Its ids are distinct if the pool ids are unique. With enough questions it has exactly 40, with the blueprint's per-category, per-form counts |

## Left out

- `Math.random` and the uniformity of the shuffle: randomness is nondeterministic choice. The claim that every permutation is equally likely is probabilistic and is not stated.
- Extra fields of question records copied by `{ ...q, question_form }`: only `id`, `module_id`, `exam_type` and the form tag are modelled.
- Prototype keys: `BLUEPRINT[examType]` with a key such as `toString` or `__proto__` finds an inherited value. The code then fails with a `TypeError` from `blueprint.forEach`, not with its own `Unknown exam type` error. The model treats every exam type outside the table as `UnknownExamType`: in both cases an exception is raised and no paper is produced.
- Shuffle: the argument is a Dafny sequence, a value, so "the argument is not modified" holds by construction. Aliasing of the JavaScript array is not modelled.
- The blueprint as injectable configuration: following the code, the blueprint is the constant table `Blueprint`. The lemmas about categories and counts are stated for any list of targets.
- Duplicate ids inside or across the input pools: the uniqueness of the paper's ids is proved only under `PoolIdsUnique`. Without it, the code can put the same id on the paper twice, and so can the model.
- `scripts/translate.js` is not part of this model: it is a batch HTTP client with file I/O.
- `src/services/questionService.js`, `src/services/knowledgeService.js` and `src/services/authService.js` are not part of this model: they are wrappers over a hosted backend.
- `src/router/index.js` and `src/main.js` are not part of this model: they are framework setup.
