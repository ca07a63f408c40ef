/**
  The mock-exam paper generator of test-prep (src/utils/examGenerator.js).

  A paper is assembled from a pool of knowledge questions and a pool of
  situational questions, following a static blueprint that says, for each
  exam type, how many questions of each form every category contributes.
  `Math.random` is modelled as nondeterministic choice: every proof below
  holds for every outcome of every shuffle.
*/
module ExamGenerator {
  import opened Sequences

  /** The `question_form` tag put on each question of a paper. */
  datatype Form = Knowledge | Situation

  /** The fields of a question record that the generator reads. */
  datatype Question = Question(id: int, moduleId: string, examType: string)

  /** A question as it appears on a paper: the pool record together with its form tag. */
  datatype ExamQuestion = ExamQuestion(question: Question, form: Form)

  /** One blueprint entry: a category and how many questions of each form it contributes. */
  datatype Target = Target(category: string, knowledge: nat, situation: nat)

  /** The one error the generator raises. */
  datatype Error = UnknownExamType(examType: string)

  datatype Result<T> = Ok(value: T) | Err(error: Error)

  /** The size of a paper: the literal 40 of the fallback and the final truncation. */
  const PaperSize: nat := 40

  const Blueprint: map<string, seq<Target>> := map[
    "CSP" := [
      Target("CSP_01", 5, 6),
      Target("CSP_02", 6, 0),
      Target("CSP_03", 5, 6),
      Target("CSP_04", 8, 0),
      Target("CSP_05", 4, 0)
    ],
    "CR" := [
      Target("CR_001", 5, 6),
      Target("CR_002", 6, 0),
      Target("CR_003", 5, 6),
      Target("CR_004", 8, 0),
      Target("CR_005", 4, 0)
    ]
  ]

  // ---------------------------------------------------------------------------
  // The blueprint
  // ---------------------------------------------------------------------------

  function KnowledgeTotal(ts: seq<Target>): nat
  {
    if |ts| == 0 then 0 else KnowledgeTotal(ts[..|ts| - 1]) + ts[|ts| - 1].knowledge
  }

  function SituationTotal(ts: seq<Target>): nat
  {
    if |ts| == 0 then 0 else SituationTotal(ts[..|ts| - 1]) + ts[|ts| - 1].situation
  }

  function Total(ts: seq<Target>): nat
  {
    KnowledgeTotal(ts) + SituationTotal(ts)
  }

  ghost predicate DistinctCategories(ts: seq<Target>)
  {
    forall i, j :: 0 <= i < j < |ts| ==> ts[i].category != ts[j].category
  }

  /** Every exam type asks for 28 knowledge and 12 situational questions: 40 in all. */
  lemma BlueprintTotals(examType: string)
    requires examType in Blueprint
    ensures KnowledgeTotal(Blueprint[examType]) == 28
    ensures SituationTotal(Blueprint[examType]) == 12
    ensures Total(Blueprint[examType]) == PaperSize
  {
    TotalsOfFive(Blueprint[examType]);
  }

  /** The totals of a five-entry blueprint, written out. */
  lemma TotalsOfFive(ts: seq<Target>)
    requires |ts| == 5
    ensures KnowledgeTotal(ts) == ts[0].knowledge + ts[1].knowledge + ts[2].knowledge + ts[3].knowledge + ts[4].knowledge
    ensures SituationTotal(ts) == ts[0].situation + ts[1].situation + ts[2].situation + ts[3].situation + ts[4].situation
  {
    var k1, k2, k3, k4 := ts[..1], ts[..2], ts[..3], ts[..4];
    assert k1[..0] == [] && k2[..1] == k1 && k3[..2] == k2 && k4[..3] == k3 && ts[..4] == k4;
    assert KnowledgeTotal(k1) == ts[0].knowledge && SituationTotal(k1) == ts[0].situation;
    assert KnowledgeTotal(k2) == KnowledgeTotal(k1) + ts[1].knowledge && SituationTotal(k2) == SituationTotal(k1) + ts[1].situation;
    assert KnowledgeTotal(k3) == KnowledgeTotal(k2) + ts[2].knowledge && SituationTotal(k3) == SituationTotal(k2) + ts[2].situation;
    assert KnowledgeTotal(k4) == KnowledgeTotal(k3) + ts[3].knowledge && SituationTotal(k4) == SituationTotal(k3) + ts[3].situation;
  }

  /** No exam type lists a category twice. */
  lemma BlueprintCategoriesDistinct(examType: string)
    requires examType in Blueprint
    ensures DistinctCategories(Blueprint[examType])
  {
  }

  // ---------------------------------------------------------------------------
  // Shuffle
  // ---------------------------------------------------------------------------

  /**
    `shuffle` (Fisher-Yates on a copy): walks the copy from the last index down
    to 1 and swaps each element with one at an index in [0, i] chosen by
    `Math.random`. The argument is a value, so it is left as it was.
  */
  method Shuffle<T>(s: seq<T>) returns (r: seq<T>)
    ensures |r| == |s|
    ensures multiset(r) == multiset(s)
  {
    var a := new T[|s|](k requires 0 <= k < |s| => s[k]);
    assert a[..] == s;
    var i := a.Length - 1;
    while i > 0
      invariant -1 <= i < a.Length
      invariant multiset(a[..]) == multiset(s)
    {
      var j :| 0 <= j <= i;
      a[i], a[j] := a[j], a[i];
      i := i - 1;
    }
    r := a[..];
  }

  // ---------------------------------------------------------------------------
  // Selections and counts
  // ---------------------------------------------------------------------------

  function QuestionId(q: Question): int { q.id }

  function PaperId(x: ExamQuestion): int { x.question.id }

  /** The filter that keeps a category's questions: those whose module is `category`. */
  function InCategory(category: string): Question -> bool
  {
    (q: Question) => q.moduleId == category
  }

  /** The fallback's filter: questions of the exam type whose id is not yet on the paper. */
  function FallbackEligible(examType: string, used: set<int>): Question -> bool
  {
    (q: Question) => q.examType == examType && q.id !in used
  }

  function IsOf(category: string, form: Form): ExamQuestion -> bool
  {
    (x: ExamQuestion) => x.question.moduleId == category && x.form == form
  }

  /**
    Tags every question of `qs` with `form`, keeping the order: the paper
    entries are exactly the block's questions, each carrying `form`.
  */
  function Tag(qs: seq<Question>, form: Form): (r: seq<ExamQuestion>)
    ensures |r| == |qs|
    ensures forall x :: x in r <==> x.question in qs && x.form == form
  {
    var r := seq(|qs|, i requires 0 <= i < |qs| => ExamQuestion(qs[i], form));
    TagMembership(qs, form, r);
    r
  }

  lemma TagMembership(qs: seq<Question>, form: Form, r: seq<ExamQuestion>)
    requires |r| == |qs| && forall i :: 0 <= i < |qs| ==> r[i] == ExamQuestion(qs[i], form)
    ensures forall x :: x in r <==> x.question in qs && x.form == form
  {
    forall x | x in r
      ensures x.question in qs && x.form == form
    {
      var i :| 0 <= i < |r| && r[i] == x;
      assert qs[i] in qs;
    }
    forall x: ExamQuestion | x.question in qs && x.form == form
      ensures x in r
    {
      var i :| 0 <= i < |qs| && qs[i] == x.question;
      assert r[i] == x;
    }
  }

  /** The ids on a paper (the contents of `usedIds`). */
  function IdsOf(paper: seq<ExamQuestion>): set<int>
  {
    set x | x in paper :: x.question.id
  }

  /** The ids of a list of questions: those of its tagged block, whatever the form. */
  function IdSet(qs: seq<Question>): set<int>
  {
    set q | q in qs :: q.id
  }

  lemma IdSetIsIdsOfTag(qs: seq<Question>, form: Form)
    ensures IdSet(qs) == IdsOf(Tag(qs, form))
  {
    forall id | id in IdSet(qs)
      ensures id in IdsOf(Tag(qs, form))
    {
      var q :| q in qs && q.id == id;
      assert ExamQuestion(q, form) in Tag(qs, form);
    }
  }

  /** How many questions of a paper belong to `category` and carry `form`. */
  function Count(paper: seq<ExamQuestion>, category: string, form: Form): nat
  {
    |Filter(paper, IsOf(category, form))|
  }

  /**
    The number of situational questions a category contributes: its
    situational count, cut down to what its part of the pool holds.
  */
  function SitCount(t: Target, situationalPool: seq<Question>): (n: nat)
    ensures n <= t.situation && n <= |Filter(situationalPool, InCategory(t.category))|
    ensures n == t.situation || n == |Filter(situationalPool, InCategory(t.category))|
  {
    Min(t.situation, |Filter(situationalPool, InCategory(t.category))|)
  }

  /** The knowledge quota of a category: its own count plus the situational shortfall. */
  function KnowledgeQuota(t: Target, situationalPool: seq<Question>): (n: nat)
    ensures n >= t.knowledge
    ensures n - t.knowledge == t.situation - SitCount(t, situationalPool)
  {
    t.knowledge + Max(0, t.situation - SitCount(t, situationalPool))
  }

  /** The number of knowledge questions a category contributes: its quota, cut down to what its part of the pool holds. */
  function KnowCount(t: Target, knowledgePool: seq<Question>, situationalPool: seq<Question>): (n: nat)
    ensures n <= KnowledgeQuota(t, situationalPool) && n <= |Filter(knowledgePool, InCategory(t.category))|
    ensures n == KnowledgeQuota(t, situationalPool) || n == |Filter(knowledgePool, InCategory(t.category))|
  {
    Min(KnowledgeQuota(t, situationalPool), |Filter(knowledgePool, InCategory(t.category))|)
  }

  // ---------------------------------------------------------------------------
  // What a run chooses
  // ---------------------------------------------------------------------------

  /** The questions one category contributes: `pickedSit` and `pickedKnow`. */
  datatype CategoryPick = CategoryPick(sit: seq<Question>, know: seq<Question>)

  /**
    `p` is a possible outcome of the per-category step for target `t`: as many
    questions of each form as the counting rules say, each drawn (without
    repetition beyond the pool's own) from that category's part of its pool.
  */
  ghost predicate PickFits(t: Target, knowledgePool: seq<Question>, situationalPool: seq<Question>, p: CategoryPick)
  {
    && |p.sit| == SitCount(t, situationalPool)
    && multiset(p.sit) <= multiset(Filter(situationalPool, InCategory(t.category)))
    && |p.know| == KnowCount(t, knowledgePool, situationalPool)
    && multiset(p.know) <= multiset(Filter(knowledgePool, InCategory(t.category)))
  }

  ghost predicate ValidPicks(ts: seq<Target>, knowledgePool: seq<Question>, situationalPool: seq<Question>, picks: seq<CategoryPick>)
  {
    |picks| == |ts| && forall j :: 0 <= j < |ts| ==> PickFits(ts[j], knowledgePool, situationalPool, picks[j])
  }

  /** The paper the per-category steps build, category after category. */
  function Collected(picks: seq<CategoryPick>): seq<ExamQuestion>
  {
    if |picks| == 0 then []
    else
      var last := picks[|picks| - 1];
      Collected(picks[..|picks| - 1]) + Tag(last.sit, Situation) + Tag(last.know, Knowledge)
  }

  /**
    The cross-category fallback's candidates: the knowledge questions of the
    exam type whose id is not on the collected paper, each as often as in the pool.
  */
  function FallbackPool(knowledgePool: seq<Question>, examType: string, collected: seq<ExamQuestion>): (r: seq<Question>)
    ensures forall q :: q in r <==> q in knowledgePool && q.examType == examType && q.id !in IdsOf(collected)
    ensures multiset(r) <= multiset(knowledgePool)
  {
    FilterSubMultiset(knowledgePool, FallbackEligible(examType, IdsOf(collected)));
    Filter(knowledgePool, FallbackEligible(examType, IdsOf(collected)))
  }

  /**
    `extra` is a possible outcome of the fallback: nothing when `collected`
    already has 40 questions or more, and otherwise as many questions of the
    fallback pool as are missing, or the whole pool when it is smaller.
  */
  ghost predicate FallbackFits(knowledgePool: seq<Question>, examType: string, collected: seq<ExamQuestion>, extra: seq<Question>)
  {
    var pool := FallbackPool(knowledgePool, examType, collected);
    if |collected| < PaperSize then
      |extra| == Min(PaperSize - |collected|, |pool|) && multiset(extra) <= multiset(pool)
    else
      extra == []
  }

  /** Every category has at least the blueprint's number of questions of each form. */
  ghost predicate AmpleSupply(ts: seq<Target>, knowledgePool: seq<Question>, situationalPool: seq<Question>)
  {
    forall j :: 0 <= j < |ts| ==>
      && ts[j].situation <= |Filter(situationalPool, InCategory(ts[j].category))|
      && ts[j].knowledge <= |Filter(knowledgePool, InCategory(ts[j].category))|
  }

  /** No id occurs twice in the two pools taken together. */
  ghost predicate PoolIdsUnique(knowledgePool: seq<Question>, situationalPool: seq<Question>)
  {
    DistinctBy(knowledgePool + situationalPool, QuestionId)
  }

  // ---------------------------------------------------------------------------
  // Facts about the specification
  // ---------------------------------------------------------------------------

  /** A category never contributes more than its blueprint total, shortfall backfill included. */
  lemma CategoryWithinTarget(t: Target, knowledgePool: seq<Question>, situationalPool: seq<Question>)
    ensures SitCount(t, situationalPool) <= t.situation
    ensures KnowledgeQuota(t, situationalPool) == t.knowledge + (t.situation - SitCount(t, situationalPool))
    ensures SitCount(t, situationalPool) == t.situation <==>
              t.situation <= |Filter(situationalPool, InCategory(t.category))|
    ensures SitCount(t, situationalPool) + KnowCount(t, knowledgePool, situationalPool) <= t.knowledge + t.situation
    ensures |Filter(knowledgePool, InCategory(t.category))| >= KnowledgeQuota(t, situationalPool) <==>
              SitCount(t, situationalPool) + KnowCount(t, knowledgePool, situationalPool) == t.knowledge + t.situation
  {
  }

  /** The questions a category contributes come from that category of the right pool. */
  lemma PickFromCategory(t: Target, knowledgePool: seq<Question>, situationalPool: seq<Question>, p: CategoryPick)
    requires PickFits(t, knowledgePool, situationalPool, p)
    ensures forall q :: q in p.sit ==> q in situationalPool && q.moduleId == t.category
    ensures forall q :: q in p.know ==> q in knowledgePool && q.moduleId == t.category
  {
    forall q | q in p.sit
      ensures q in situationalPool && q.moduleId == t.category
    {
      assert q in multiset(p.sit);
    }
    forall q | q in p.know
      ensures q in knowledgePool && q.moduleId == t.category
    {
      assert q in multiset(p.know);
    }
  }

  /** The per-category steps never collect more questions than the blueprint's total. */
  lemma {:induction false} CollectedSize(ts: seq<Target>, knowledgePool: seq<Question>, situationalPool: seq<Question>, picks: seq<CategoryPick>)
    requires ValidPicks(ts, knowledgePool, situationalPool, picks)
    ensures |Collected(picks)| <= Total(ts)
    ensures AmpleSupply(ts, knowledgePool, situationalPool) ==> |Collected(picks)| == Total(ts)
    decreases |ts|
  {
    if |ts| > 0 {
      var n := |ts| - 1;
      assert ValidPicks(ts[..n], knowledgePool, situationalPool, picks[..n]);
      assert AmpleSupply(ts, knowledgePool, situationalPool) ==> AmpleSupply(ts[..n], knowledgePool, situationalPool);
      CollectedSize(ts[..n], knowledgePool, situationalPool, picks[..n]);
      CategoryWithinTarget(ts[n], knowledgePool, situationalPool);
    }
  }

  /** Filtering a tagged block of one category by category and form keeps all of it or none of it. */
  lemma FilterTagged(qs: seq<Question>, tag: Form, moduleId: string, category: string, form: Form)
    requires forall q :: q in qs ==> q.moduleId == moduleId
    ensures Filter(Tag(qs, tag), IsOf(category, form)) == if moduleId == category && tag == form then Tag(qs, tag) else []
  {
    if moduleId == category && tag == form {
      FilterAll(Tag(qs, tag), IsOf(category, form));
    } else {
      FilterNone(Tag(qs, tag), IsOf(category, form));
    }
  }

  /** Appending another category's block adds nothing to the questions of a category and form. */
  lemma FilterStepOther(front: seq<ExamQuestion>, p: CategoryPick, moduleId: string, category: string, form: Form)
    requires moduleId != category
    requires forall q :: q in p.sit ==> q.moduleId == moduleId
    requires forall q :: q in p.know ==> q.moduleId == moduleId
    ensures Filter(front + Tag(p.sit, Situation) + Tag(p.know, Knowledge), IsOf(category, form)) ==
            Filter(front, IsOf(category, form))
  {
    FilterTagged(p.sit, Situation, moduleId, category, form);
    FilterTagged(p.know, Knowledge, moduleId, category, form);
    FilterKeepFirst(front, Tag(p.sit, Situation), Tag(p.know, Knowledge), IsOf(category, form));
  }

  /** Appending a category's own block adds its situational and its knowledge picks to the respective forms. */
  lemma FilterStepOwn(front: seq<ExamQuestion>, p: CategoryPick, category: string)
    requires forall q :: q in p.sit ==> q.moduleId == category
    requires forall q :: q in p.know ==> q.moduleId == category
    ensures Filter(front + Tag(p.sit, Situation) + Tag(p.know, Knowledge), IsOf(category, Situation)) ==
            Filter(front, IsOf(category, Situation)) + Tag(p.sit, Situation)
    ensures Filter(front + Tag(p.sit, Situation) + Tag(p.know, Knowledge), IsOf(category, Knowledge)) ==
            Filter(front, IsOf(category, Knowledge)) + Tag(p.know, Knowledge)
  {
    var ts, tk := Tag(p.sit, Situation), Tag(p.know, Knowledge);
    FilterTagged(p.sit, Situation, category, category, Situation);
    FilterTagged(p.know, Knowledge, category, category, Situation);
    FilterKeepMiddle(front, ts, tk, IsOf(category, Situation));
    FilterTagged(p.sit, Situation, category, category, Knowledge);
    FilterTagged(p.know, Knowledge, category, category, Knowledge);
    FilterKeepLast(front, ts, tk, IsOf(category, Knowledge));
  }

  /** Each of the first `|picks|` steps picked only questions of its own target's category. */
  ghost predicate InOwnCategory(ts: seq<Target>, picks: seq<CategoryPick>)
  {
    && |picks| <= |ts|
    && (forall j, q :: 0 <= j < |picks| && q in picks[j].sit ==> q.moduleId == ts[j].category)
    && (forall j, q :: 0 <= j < |picks| && q in picks[j].know ==> q.moduleId == ts[j].category)
  }

  lemma ValidPicksInOwnCategory(ts: seq<Target>, knowledgePool: seq<Question>, situationalPool: seq<Question>, picks: seq<CategoryPick>)
    requires ValidPicks(ts, knowledgePool, situationalPool, picks)
    ensures InOwnCategory(ts, picks)
  {
    forall j | 0 <= j < |picks| {
      PickFromCategory(ts[j], knowledgePool, situationalPool, picks[j]);
    }
  }

  lemma InOwnCategoryPrefix(ts: seq<Target>, picks: seq<CategoryPick>, n: nat)
    requires InOwnCategory(ts, picks) && n <= |picks|
    ensures InOwnCategory(ts, picks[..n])
  {
    assert forall j :: 0 <= j < n ==> picks[..n][j] == picks[j];
  }

  /** A category that none of the first `|picks|` steps handled has no question on the collected paper. */
  lemma {:induction false} CountAbsent(ts: seq<Target>, picks: seq<CategoryPick>, category: string)
    requires InOwnCategory(ts, picks)
    requires forall j :: 0 <= j < |picks| ==> ts[j].category != category
    ensures Filter(Collected(picks), IsOf(category, Situation)) == []
    ensures Filter(Collected(picks), IsOf(category, Knowledge)) == []
    decreases |picks|
  {
    if |picks| > 0 {
      var n := |picks| - 1;
      var front := picks[..n];
      InOwnCategoryPrefix(ts, picks, n);
      CountAbsent(ts, front, category);
      FilterStepOther(Collected(front), picks[n], ts[n].category, category, Situation);
      FilterStepOther(Collected(front), picks[n], ts[n].category, category, Knowledge);
    }
  }

  /**
    On the collected paper, the situational questions of the j-th step's
    category are exactly that step's situational picks, tagged and in the
    order they were picked, and likewise for its knowledge questions; so
    their counts are the numbers of picks.
  */
  lemma {:induction false} CountCollected(ts: seq<Target>, picks: seq<CategoryPick>, j: nat, category: string)
    requires InOwnCategory(ts, picks) && DistinctCategories(ts)
    requires j < |picks| && ts[j].category == category
    ensures Filter(Collected(picks), IsOf(category, Situation)) == Tag(picks[j].sit, Situation)
    ensures Filter(Collected(picks), IsOf(category, Knowledge)) == Tag(picks[j].know, Knowledge)
    ensures Count(Collected(picks), category, Situation) == |picks[j].sit|
    ensures Count(Collected(picks), category, Knowledge) == |picks[j].know|
    decreases |picks|
  {
    var n := |picks| - 1;
    var front := picks[..n];
    InOwnCategoryPrefix(ts, picks, n);
    if j == n {
      CountAbsent(ts, front, category);
      FilterStepOwn(Collected(front), picks[n], category);
    } else {
      CountCollected(ts, front, j, category);
      assert front[j] == picks[j];
      FilterStepOther(Collected(front), picks[n], ts[n].category, category, Situation);
      FilterStepOther(Collected(front), picks[n], ts[n].category, category, Knowledge);
    }
  }

  /**
    With ample supply every category's step picks exactly the blueprint's
    numbers: no shortfall, so no backfill.
  */
  lemma AmplePicksMatchBlueprint(ts: seq<Target>, knowledgePool: seq<Question>, situationalPool: seq<Question>, picks: seq<CategoryPick>)
    requires ValidPicks(ts, knowledgePool, situationalPool, picks)
    requires AmpleSupply(ts, knowledgePool, situationalPool)
    ensures forall j :: 0 <= j < |ts| ==> |picks[j].sit| == ts[j].situation && |picks[j].know| == ts[j].knowledge
  {
  }

  /**
    What unique ids in the pools give: a question is determined by its id, and
    no knowledge question shares its id with a situational one.
  */
  lemma PoolIdFacts(knowledgePool: seq<Question>, situationalPool: seq<Question>)
    requires PoolIdsUnique(knowledgePool, situationalPool)
    ensures forall a, b :: a in knowledgePool + situationalPool && b in knowledgePool + situationalPool && a.id == b.id ==> a == b
    ensures forall a, b :: a in knowledgePool && b in situationalPool ==> a.id != b.id
    ensures DistinctBy(knowledgePool, QuestionId) && DistinctBy(situationalPool, QuestionId)
  {
    var all := knowledgePool + situationalPool;
    forall a, b | a in all && b in all && a.id == b.id
      ensures a == b
    {
      var i :| 0 <= i < |all| && all[i] == a;
      var j :| 0 <= j < |all| && all[j] == b;
      assert !(i < j) && !(j < i);
    }
    forall a, b | a in knowledgePool && b in situationalPool
      ensures a.id != b.id
    {
      var i :| 0 <= i < |knowledgePool| && knowledgePool[i] == a;
      var j :| 0 <= j < |situationalPool| && situationalPool[j] == b;
      assert all[i] == a && all[|knowledgePool| + j] == b;
    }
    forall i, j | 0 <= i < j < |knowledgePool|
      ensures QuestionId(knowledgePool[i]) != QuestionId(knowledgePool[j])
    {
      assert all[i] == knowledgePool[i] && all[j] == knowledgePool[j];
    }
    forall i, j | 0 <= i < j < |situationalPool|
      ensures QuestionId(situationalPool[i]) != QuestionId(situationalPool[j])
    {
      assert all[|knowledgePool| + i] == situationalPool[i] && all[|knowledgePool| + j] == situationalPool[j];
    }
  }

  /**
    The fallback only runs below 40, never takes the paper beyond 40, and draws
    knowledge-pool questions of the right exam type whose ids are not on the
    paper yet; when no id is shared between the pools, none of them is a
    situational question, and no two of them share an id.
  */
  lemma FallbackDraws(knowledgePool: seq<Question>, situationalPool: seq<Question>, examType: string,
                      collected: seq<ExamQuestion>, extra: seq<Question>)
    requires FallbackFits(knowledgePool, examType, collected, extra)
    ensures |collected| >= PaperSize ==> extra == []
    ensures |collected| < PaperSize ==> |collected| + |extra| <= PaperSize
    ensures forall q :: q in extra ==> q in knowledgePool && q.examType == examType && q.id !in IdsOf(collected)
    ensures PoolIdsUnique(knowledgePool, situationalPool) ==>
              DistinctBy(extra, QuestionId) && forall q :: q in extra ==> q !in situationalPool
  {
    var pool := FallbackPool(knowledgePool, examType, collected);
    forall q | q in extra
      ensures q in pool
    {
      assert q in multiset(extra);
    }
    if PoolIdsUnique(knowledgePool, situationalPool) {
      PoolIdFacts(knowledgePool, situationalPool);
      FilterSubMultiset(knowledgePool, FallbackEligible(examType, IdsOf(collected)));
      DistinctBySub(knowledgePool, extra, QuestionId);
      forall q | q in extra
        ensures q !in situationalPool
      {
        assert forall b :: b in situationalPool ==> q.id != b.id;
      }
    }
  }

  lemma IdsOfAppend(paper: seq<ExamQuestion>, qs: seq<Question>, form: Form)
    ensures IdsOf(paper + Tag(qs, form)) == IdsOf(paper) + IdSet(qs)
  {
    IdSetIsIdsOfTag(qs, form);
    var t := Tag(qs, form);
    forall id | id in IdsOf(t)
      ensures id in IdsOf(paper + t)
    {
      var x :| x in t && x.question.id == id;
      assert x in paper + t;
    }
  }

  /** Appending questions with distinct ids not yet on a paper keeps the ids of the paper distinct. */
  lemma AppendDistinct(paper: seq<ExamQuestion>, qs: seq<Question>, form: Form)
    requires DistinctBy(paper, PaperId)
    requires DistinctBy(qs, QuestionId)
    requires forall x, q :: x in paper && q in qs ==> x.question.id != q.id
    ensures DistinctBy(paper + Tag(qs, form), PaperId)
  {
    var s := paper + Tag(qs, form);
    forall i, j | 0 <= i < j < |s|
      ensures PaperId(s[i]) != PaperId(s[j])
    {
      if j >= |paper| {
        assert s[j].question == qs[j - |paper|];
        assert qs[j - |paper|] in qs;
        if i < |paper| {
          assert s[i] in paper;
        } else {
          assert s[i].question == qs[i - |paper|];
        }
      }
    }
  }

  /**
    With unique pool ids, a category's picks have distinct ids, which differ
    from one another across the two forms and from every id already on a paper
    of questions from other categories.
  */
  lemma UniqueIdsOfPicks(knowledgePool: seq<Question>, situationalPool: seq<Question>, t: Target,
                         paper: seq<ExamQuestion>, pick: CategoryPick)
    requires PickFits(t, knowledgePool, situationalPool, pick)
    requires PoolIdsUnique(knowledgePool, situationalPool)
    requires forall x :: x in paper ==> x.question in knowledgePool + situationalPool && x.question.moduleId != t.category
    ensures DistinctBy(pick.sit, QuestionId) && DistinctBy(pick.know, QuestionId)
    ensures forall x, q :: x in paper && q in pick.sit ==> x.question.id != q.id
    ensures forall x, q :: x in paper && q in pick.know ==> x.question.id != q.id
    ensures forall q', q :: q' in pick.sit && q in pick.know ==> q'.id != q.id
  {
    PoolIdFacts(knowledgePool, situationalPool);
    FilterSubMultiset(situationalPool, InCategory(t.category));
    FilterSubMultiset(knowledgePool, InCategory(t.category));
    DistinctBySub(situationalPool, pick.sit, QuestionId);
    DistinctBySub(knowledgePool, pick.know, QuestionId);
    PickFromCategory(t, knowledgePool, situationalPool, pick);
    forall x, q | x in paper && (q in pick.sit || q in pick.know)
      ensures x.question.id != q.id
    {
      assert q in knowledgePool + situationalPool;
      assert x.question != q;
    }
  }

  // ---------------------------------------------------------------------------
  // The generator
  // ---------------------------------------------------------------------------

  /** Appends each picked question to the paper, tagged with `form` and in order, and adds its id to the used-id set. */
  method PushAll(paper: seq<ExamQuestion>, used: set<int>, picked: seq<Question>, form: Form)
    returns (paper': seq<ExamQuestion>, used': set<int>)
    ensures paper' == paper + Tag(picked, form)
    ensures used' == used + IdSet(picked)
  {
    paper', used' := paper, used;
    for i := 0 to |picked|
      invariant paper' == paper + Tag(picked[..i], form)
      invariant used' == used + IdSet(picked[..i])
    {
      assert picked[..i + 1] == picked[..i] + [picked[i]];
      paper' := paper' + [ExamQuestion(picked[i], form)];
      used' := used' + {picked[i].id};
    }
    assert picked[..|picked|] == picked;
  }

  /** Appends each question to the paper, tagged with `form` and in order; unlike `PushAll` it leaves the used-id set alone. */
  method PushTagged(paper: seq<ExamQuestion>, picked: seq<Question>, form: Form) returns (paper': seq<ExamQuestion>)
    ensures paper' == paper + Tag(picked, form)
  {
    paper' := paper;
    for i := 0 to |picked|
      invariant paper' == paper + Tag(picked[..i], form)
    {
      paper' := paper' + [ExamQuestion(picked[i], form)];
    }
    assert picked[..|picked|] == picked;
  }

  /**
    The step the blueprint loop runs for one target: pick the category's
    situational questions, then its knowledge questions with the shortfall
    added to the quota, and record them on the paper and in `usedIds`.
  */
  method AddCategory(knowledgePool: seq<Question>, situationalPool: seq<Question>, t: Target,
                     paper: seq<ExamQuestion>, used: set<int>)
    returns (paper': seq<ExamQuestion>, used': set<int>, ghost pick: CategoryPick)
    ensures PickFits(t, knowledgePool, situationalPool, pick)
    ensures paper' == paper + Tag(pick.sit, Situation) + Tag(pick.know, Knowledge)
    ensures used' == used + IdSet(pick.sit) + IdSet(pick.know)
    ensures forall x :: x in paper' ==> x in paper || (x.question in knowledgePool + situationalPool && x.question.moduleId == t.category)
    ensures PoolIdsUnique(knowledgePool, situationalPool) && DistinctBy(paper, PaperId) &&
            (forall x :: x in paper ==> x.question in knowledgePool + situationalPool && x.question.moduleId != t.category)
            ==> DistinctBy(paper', PaperId)
  {
    var catKnow := Shuffle(Filter(knowledgePool, InCategory(t.category)));
    var catSit := Shuffle(Filter(situationalPool, InCategory(t.category)));

    var pickedSit := Take(catSit, t.situation);
    var paper1, used1 := PushAll(paper, used, pickedSit, Situation);

    var missingSitCount := t.situation - |pickedSit|;
    var knowledgeTargetCount := t.knowledge + Max(0, missingSitCount);

    var pickedKnow := Take(catKnow, knowledgeTargetCount);
    paper', used' := PushAll(paper1, used1, pickedKnow, Knowledge);

    pick := CategoryPick(pickedSit, pickedKnow);
    PickFromCategory(t, knowledgePool, situationalPool, pick);
    if PoolIdsUnique(knowledgePool, situationalPool) && DistinctBy(paper, PaperId) &&
       (forall x :: x in paper ==> x.question in knowledgePool + situationalPool && x.question.moduleId != t.category)
    {
      UniqueIdsOfPicks(knowledgePool, situationalPool, t, paper, pick);
      AppendDistinct(paper, pickedSit, Situation);
      AppendDistinct(paper1, pickedKnow, Knowledge);
    }
  }

  /**
    The loop over the blueprint: run the category step for every target
    in blueprint order, starting from an empty paper and an empty `usedIds`.
  */
  method CollectCategories(knowledgePool: seq<Question>, situationalPool: seq<Question>, blueprint: seq<Target>)
    returns (examQuestions: seq<ExamQuestion>, usedIds: set<int>, ghost picks: seq<CategoryPick>)
    ensures ValidPicks(blueprint, knowledgePool, situationalPool, picks)
    ensures examQuestions == Collected(picks)
    ensures usedIds == IdsOf(examQuestions)
    ensures PoolIdsUnique(knowledgePool, situationalPool) && DistinctCategories(blueprint) ==>
              DistinctBy(examQuestions, PaperId)
  {
    examQuestions, usedIds, picks := [], {}, [];
    ghost var unique := PoolIdsUnique(knowledgePool, situationalPool) && DistinctCategories(blueprint);
    for k := 0 to |blueprint|
      invariant |picks| == k
      invariant ValidPicks(blueprint[..k], knowledgePool, situationalPool, picks)
      invariant examQuestions == Collected(picks)
      invariant usedIds == IdsOf(examQuestions)
      invariant unique ==> ForeignTo(examQuestions, knowledgePool, situationalPool, blueprint[k..])
      invariant unique ==> DistinctBy(examQuestions, PaperId)
    {
      ghost var pick: CategoryPick;
      ghost var before := examQuestions;
      examQuestions, usedIds, pick := AddCategory(knowledgePool, situationalPool, blueprint[k], examQuestions, usedIds);
      IdsOfAppend(before, pick.sit, Situation);
      IdsOfAppend(before + Tag(pick.sit, Situation), pick.know, Knowledge);
      ValidPicksStep(blueprint, k, knowledgePool, situationalPool, picks, pick);
      picks := picks + [pick];
      assert picks[..k] == picks[..|picks| - 1];
      if unique {
        assert forall j :: k < j < |blueprint| ==> blueprint[k].category != blueprint[j].category;
        assert blueprint[k + 1..] == blueprint[k..][1..];
      }
    }
    assert blueprint[..|blueprint|] == blueprint;
  }

  /** One more category step extends the valid picks by one target. */
  lemma ValidPicksStep(ts: seq<Target>, k: nat, knowledgePool: seq<Question>, situationalPool: seq<Question>,
                       picks: seq<CategoryPick>, p: CategoryPick)
    requires k < |ts|
    requires ValidPicks(ts[..k], knowledgePool, situationalPool, picks)
    requires PickFits(ts[k], knowledgePool, situationalPool, p)
    ensures ValidPicks(ts[..k + 1], knowledgePool, situationalPool, picks + [p])
  {
    var ts', picks' := ts[..k + 1], picks + [p];
    forall j | 0 <= j < |ts'|
      ensures PickFits(ts'[j], knowledgePool, situationalPool, picks'[j])
    {
      if j < k {
        assert ts'[j] == ts[..k][j] && picks'[j] == picks[j];
      }
    }
  }

  /**
    Every question on `paper` is a pool question whose category is none of
    those of `rest`, the targets still to be processed.
  */
  ghost predicate ForeignTo(paper: seq<ExamQuestion>, knowledgePool: seq<Question>, situationalPool: seq<Question>, rest: seq<Target>)
  {
    forall x :: x in paper ==>
      x.question in knowledgePool + situationalPool &&
      forall t :: t in rest ==> x.question.moduleId != t.category
  }

  /**
    `generateExamPaper(knowledgePool, situationalPool, examType)`.

    The ghost results name what the run chose: `picks[j]` is what the j-th
    blueprint category contributed, `extra` what the cross-category fallback
    added.
  */
  method GenerateExamPaper(knowledgePool: seq<Question>, situationalPool: seq<Question>, examType: string)
    returns (r: Result<seq<ExamQuestion>>, ghost picks: seq<CategoryPick>, ghost extra: seq<Question>)
    // An exam type without a blueprint entry is an error, and the only one.
    ensures r.Err? <==> examType !in Blueprint
    ensures r.Err? ==> r.error == UnknownExamType(examType)
    // Each category contributes what the counting rules allow, from its own part of each pool.
    ensures r.Ok? ==> ValidPicks(Blueprint[examType], knowledgePool, situationalPool, picks)
    // The fallback tops up to 40 from the unused knowledge questions of the exam type.
    ensures r.Ok? ==> FallbackFits(knowledgePool, examType, Collected(picks), extra)
    // The paper is a reordering of everything collected: the truncation to 40 never drops a question.
    ensures r.Ok? ==> multiset(r.value) == multiset(Collected(picks) + Tag(extra, Knowledge))
    ensures r.Ok? ==> |r.value| <= PaperSize
    ensures r.Ok? && PoolIdsUnique(knowledgePool, situationalPool) ==> DistinctBy(r.value, PaperId)
    // With enough questions in every category the paper follows the blueprint exactly.
    ensures r.Ok? && AmpleSupply(Blueprint[examType], knowledgePool, situationalPool) ==>
              |r.value| == PaperSize &&
              forall j :: 0 <= j < |Blueprint[examType]| ==>
                Count(r.value, Blueprint[examType][j].category, Situation) == Blueprint[examType][j].situation &&
                Count(r.value, Blueprint[examType][j].category, Knowledge) == Blueprint[examType][j].knowledge
  {
    picks, extra := [], [];
    if examType !in Blueprint {
      return Err(UnknownExamType(examType)), picks, extra;
    }
    var blueprint := Blueprint[examType];
    BlueprintCategoriesDistinct(examType);

    var examQuestions: seq<ExamQuestion>, usedIds: set<int>;
    examQuestions, usedIds, picks := CollectCategories(knowledgePool, situationalPool, blueprint);
    ghost var collected := examQuestions;

    if |examQuestions| < PaperSize {
      var fallbackPool := Shuffle(Filter(knowledgePool, FallbackEligible(examType, usedIds)));
      var extraQuestions := Take(fallbackPool, PaperSize - |examQuestions|);
      extra := extraQuestions;
      examQuestions := PushTagged(examQuestions, extraQuestions, Knowledge);
    }
    assert examQuestions == collected + Tag(extra, Knowledge);
    assert FallbackFits(knowledgePool, examType, collected, extra);

    var shuffled := Shuffle(examQuestions);
    PaperFromCollected(knowledgePool, situationalPool, examType, picks, extra, shuffled);
    var paper := Take(shuffled, PaperSize);
    assert paper == shuffled;
    r := Ok(paper);
  }

  /**
    What the final shuffle of the collected questions yields: at most 40
    questions, so the truncation keeps them all; distinct ids when the pools'
    ids are unique; and, with ample supply, exactly the blueprint's counts.
  */
  lemma PaperFromCollected(knowledgePool: seq<Question>, situationalPool: seq<Question>, examType: string,
                           picks: seq<CategoryPick>, extra: seq<Question>, paper: seq<ExamQuestion>)
    requires examType in Blueprint
    requires ValidPicks(Blueprint[examType], knowledgePool, situationalPool, picks)
    requires FallbackFits(knowledgePool, examType, Collected(picks), extra)
    requires PoolIdsUnique(knowledgePool, situationalPool) ==> DistinctBy(Collected(picks), PaperId)
    requires multiset(paper) == multiset(Collected(picks) + Tag(extra, Knowledge))
    ensures |paper| <= PaperSize
    ensures PoolIdsUnique(knowledgePool, situationalPool) ==> DistinctBy(paper, PaperId)
    ensures AmpleSupply(Blueprint[examType], knowledgePool, situationalPool) ==>
              |paper| == PaperSize &&
              forall j :: 0 <= j < |Blueprint[examType]| ==>
                Count(paper, Blueprint[examType][j].category, Situation) == Blueprint[examType][j].situation &&
                Count(paper, Blueprint[examType][j].category, Knowledge) == Blueprint[examType][j].knowledge
  {
    var blueprint := Blueprint[examType];
    var collected := Collected(picks);
    var all := collected + Tag(extra, Knowledge);
    BlueprintCategoriesDistinct(examType);
    BlueprintTotals(examType);
    CollectedSize(blueprint, knowledgePool, situationalPool, picks);
    FallbackDraws(knowledgePool, situationalPool, examType, collected, extra);
    assert |paper| == |multiset(all)| == |all|;
    if PoolIdsUnique(knowledgePool, situationalPool) {
      forall x, q | x in collected && q in extra
        ensures x.question.id != q.id
      {
        assert x.question.id in IdsOf(collected);
      }
      AppendDistinct(collected, extra, Knowledge);
      DistinctBySub(all, paper, PaperId);
    }
    if AmpleSupply(blueprint, knowledgePool, situationalPool) {
      AmplePicksMatchBlueprint(blueprint, knowledgePool, situationalPool, picks);
      ValidPicksInOwnCategory(blueprint, knowledgePool, situationalPool, picks);
      forall j | 0 <= j < |blueprint|
        ensures Count(paper, blueprint[j].category, Situation) == blueprint[j].situation
        ensures Count(paper, blueprint[j].category, Knowledge) == blueprint[j].knowledge
      {
        CountCollected(blueprint, picks, j, blueprint[j].category);
        assert all == collected;
        FilterPermutation(paper, collected, IsOf(blueprint[j].category, Situation));
        FilterPermutation(paper, collected, IsOf(blueprint[j].category, Knowledge));
      }
    }
  }
}
