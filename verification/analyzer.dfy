/**
 * The answer side of the AI analyzer (EnhancedAIAnalyzer): the model's reply is cut
 * at every '[' into tagged sections, the recommended remedy is classified by
 * keywords into one of three actions, and when no recommendation can be read the
 * analysis falls back to a fixed priority of metric thresholds.
 */
module Analyzer {
  import opened Wrappers
  import opened JavaText
  import opened Metrics

  /** The remedies the analysis may ask for. */
  datatype ActionType = ClearRedisCache | ForceGc | AdjustDbPool

  /** The section tags of a reply, each the text right after a '['. */
  const AnalysisTag: string := "분석]"
  const RecommendationTag: string := "권장]"
  const ReasonTag: string := "근거]"

  // ---- the keyword classifier ----

  predicate MentionsCache(recommendation: string) {
    Contains(recommendation, "Redis") || Contains(recommendation, "캐시")
  }

  predicate MentionsGc(recommendation: string) {
    Contains(recommendation, "GC") || Contains(recommendation, "가비지")
  }

  predicate MentionsDb(recommendation: string) {
    Contains(recommendation, "DB") || Contains(recommendation, "커넥션")
  }

  /**
   * `mapRecommendationToActionType`: the cache keywords win over the GC keywords,
   * which win over the database keywords; a recommendation with none of them asks
   * for the cache to be cleared.
   */
  function ActionFor(recommendation: string): (a: ActionType)
    ensures a == ForceGc <==> !MentionsCache(recommendation) && MentionsGc(recommendation)
    ensures a == AdjustDbPool <==>
      !MentionsCache(recommendation) && !MentionsGc(recommendation) && MentionsDb(recommendation)
    ensures a == ClearRedisCache <==>
      MentionsCache(recommendation) || (!MentionsGc(recommendation) && !MentionsDb(recommendation))
  {
    if MentionsCache(recommendation) then ClearRedisCache
    else if MentionsGc(recommendation) then ForceGc
    else if MentionsDb(recommendation) then AdjustDbPool
    else ClearRedisCache
  }

  // ---- the fallback ----

  /** Which branch of `buildFallbackAnalysis` applies. */
  datatype FallbackRule = CpuOver | MemoryOver | DbPoolBusy | SlowResponses | NothingOver

  /**
   * The fallback's priority: CPU above 80, then memory above 85, then more than 90%
   * of the pool's connections active, then a mean response time above 1000 ms.
   */
  function FallbackRuleFor(m: SystemMetrics): (rule: FallbackRule)
    ensures rule == CpuOver <==> m.cpuUsage > 80.0
    ensures rule == MemoryOver <==> m.cpuUsage <= 80.0 && m.memoryUsagePercent > 85.0
    ensures rule == DbPoolBusy <==> (m.cpuUsage <= 80.0 && m.memoryUsagePercent <= 85.0 &&
      m.dbConnectionActive as real > m.dbConnectionMax as real * 0.9)
    ensures rule == SlowResponses <==> (m.cpuUsage <= 80.0 && m.memoryUsagePercent <= 85.0 &&
      m.dbConnectionActive as real <= m.dbConnectionMax as real * 0.9 && m.httpRequestMeanTime > 1000.0)
    ensures rule == NothingOver <==> (m.cpuUsage <= 80.0 && m.memoryUsagePercent <= 85.0 &&
      m.dbConnectionActive as real <= m.dbConnectionMax as real * 0.9 && m.httpRequestMeanTime <= 1000.0)
  {
    if m.cpuUsage > 80.0 then CpuOver
    else if m.memoryUsagePercent > 85.0 then MemoryOver
    else if m.dbConnectionActive as real > m.dbConnectionMax as real * 0.9 then DbPoolBusy
    else if m.httpRequestMeanTime > 1000.0 then SlowResponses
    else NothingOver
  }

  /** The recommendation text each fallback branch gives. */
  function FallbackRecommendation(rule: FallbackRule): string {
    match rule
    case CpuOver | MemoryOver => "가비지 컬렉션 실행"
    case DbPoolBusy => "DB 풀 정리"
    case SlowResponses | NothingOver => "Redis 캐시 초기화"
  }

  /** The action each fallback branch sets. */
  function FallbackAction(rule: FallbackRule): ActionType {
    match rule
    case CpuOver | MemoryOver => ForceGc
    case DbPoolBusy => AdjustDbPool
    case SlowResponses | NothingOver => ClearRedisCache
  }

  /** The fallback asks for GC on a hot CPU or a full memory, for the pool when it is nearly exhausted, and for the cache otherwise. */
  lemma FallbackActionByMetrics(m: SystemMetrics)
    ensures FallbackAction(FallbackRuleFor(m)) == ForceGc <==> m.cpuUsage > 80.0 || m.memoryUsagePercent > 85.0
    ensures FallbackAction(FallbackRuleFor(m)) == AdjustDbPool <==>
      (m.cpuUsage <= 80.0 && m.memoryUsagePercent <= 85.0 &&
       m.dbConnectionActive as real > m.dbConnectionMax as real * 0.9)
  {
  }

  lemma GcTextAsksForGc(s: string)
    requires s == "가비지 컬렉션 실행"
    ensures ActionFor(s) == ForceGc
  {
    MissingCharNotContained(s, "Redis");
    MissingCharNotContained(s, "캐시");
    ContainsAt(s, "가비지", 0);
  }

  lemma PoolTextAsksForPool(s: string)
    requires s == "DB 풀 정리"
    ensures ActionFor(s) == AdjustDbPool
  {
    MissingCharNotContained(s, "Redis");
    MissingCharNotContained(s, "캐시");
    MissingCharNotContained(s, "GC");
    MissingCharNotContained(s, "가비지");
    ContainsAt(s, "DB", 0);
  }

  lemma CacheTextAsksForCache(s: string)
    requires s == "Redis 캐시 초기화"
    ensures ActionFor(s) == ClearRedisCache
  {
    ContainsAt(s, "Redis", 0);
  }

  /** The classifier, run on a fallback's own recommendation text, picks the fallback's own action. */
  lemma FallbackAgreesWithClassifier(rule: FallbackRule)
    ensures ActionFor(FallbackRecommendation(rule)) == FallbackAction(rule)
  {
    var s := FallbackRecommendation(rule);
    match rule {
      case CpuOver | MemoryOver => GcTextAsksForGc(s);
      case DbPoolBusy => PoolTextAsksForPool(s);
      case SlowResponses | NothingOver => CacheTextAsksForCache(s);
    }
  }

  // ---- the reply ----

  /**
   * What the analysis returns: the sections read from the reply, or the fallback
   * branch that applied (its explanatory sentences are not modelled).
   */
  datatype AnalysisResult =
    | Parsed(analysis: string, recommendation: string, reason: string, actionType: ActionType)
    | Fallback(rule: FallbackRule)

  function RecommendationOf(r: AnalysisResult): string {
    if r.Parsed? then r.recommendation else FallbackRecommendation(r.rule)
  }

  function ActionOf(r: AnalysisResult): ActionType {
    if r.Parsed? then r.actionType else FallbackAction(r.rule)
  }

  /** The last of `parts` that starts with `tag`, if any. */
  function LastTagged(parts: seq<string>, tag: string): Option<string> {
    if parts == [] then None
    else if StartsWith(parts[|parts| - 1], tag) then Some(parts[|parts| - 1])
    else LastTagged(parts[..|parts| - 1], tag)
  }

  /**
   * When a tag occurs more than once the last occurrence wins: LastTagged finds
   * nothing exactly when no part carries the tag, and otherwise a part that carries
   * it with none after it that does.
   */
  lemma {:induction false} LastTaggedIsLast(parts: seq<string>, tag: string)
    ensures LastTagged(parts, tag).None? <==> forall i :: 0 <= i < |parts| ==> !StartsWith(parts[i], tag)
    ensures LastTagged(parts, tag).Some? ==>
      exists i :: (0 <= i < |parts| && parts[i] == LastTagged(parts, tag).value && StartsWith(parts[i], tag) &&
        forall j :: i < j < |parts| ==> !StartsWith(parts[j], tag))
  {
    if parts != [] {
      var n := |parts| - 1;
      if !StartsWith(parts[n], tag) {
        var init := parts[..n];
        assert LastTagged(parts, tag) == LastTagged(init, tag);
        LastTaggedIsLast(init, tag);
        assert forall i :: 0 <= i < n ==> init[i] == parts[i];
        if LastTagged(init, tag).Some? {
          var i :| 0 <= i < n && init[i] == LastTagged(init, tag).value && StartsWith(init[i], tag) &&
            forall j :: i < j < n ==> !StartsWith(init[j], tag);
          assert parts[i] == LastTagged(parts, tag).value && StartsWith(parts[i], tag);
          assert forall j :: i < j < |parts| ==> !StartsWith(parts[j], tag);
        }
      } else {
        assert parts[n] == LastTagged(parts, tag).value;
      }
    }
  }

  /** A section's text: its part with every occurrence of the tag removed, then trimmed. */
  function TagValue(part: string, tag: string): string
    requires tag != []
  {
    Trim(RemoveAll(part, tag))
  }

  /** The text of the last section tagged `tag`, or "" when there is none. */
  function Section(parts: seq<string>, tag: string): string
    requires tag != []
  {
    var last := LastTagged(parts, tag);
    if last.Some? then TagValue(last.value, tag) else ""
  }

  /**
   * What `parseAnalysisResponse` computes: for each tag the text of its last
   * section, and the fallback when the recommendation is empty.
   */
  function Parse(aiResponse: string, current: SystemMetrics): AnalysisResult {
    var parts := JavaSplit(aiResponse, '[');
    var recommendation := Section(parts, RecommendationTag);
    if recommendation == [] then Fallback(FallbackRuleFor(current))
    else Parsed(Section(parts, AnalysisTag), recommendation, Section(parts, ReasonTag), ActionFor(recommendation))
  }

  /** Removing text never brings in a character that was not there. */
  lemma {:induction false} RemoveAllKeepsOut(s: string, t: string, c: char)
    requires t != [] && c !in s
    ensures c !in RemoveAll(s, t)
    decreases |s|
  {
    if |s| >= |t| {
      if s[..|t|] == t {
        RemoveAllKeepsOut(s[|t|..], t, c);
      } else {
        RemoveAllKeepsOut(s[1..], t, c);
      }
    }
  }

  /** No part starts with two different tags: their first characters differ. */
  lemma TagsExclusive(part: string)
    ensures StartsWith(part, AnalysisTag) ==> !StartsWith(part, RecommendationTag) && !StartsWith(part, ReasonTag)
    ensures StartsWith(part, RecommendationTag) ==> !StartsWith(part, ReasonTag)
  {
    if StartsWith(part, AnalysisTag) {
      assert part[0] == AnalysisTag[0];
    }
    if StartsWith(part, RecommendationTag) {
      assert part[0] == RecommendationTag[0];
    }
  }

  /**
   * A section as the analysis and recommendation branches read it: the removal, then
   * `split("\\[")[0]`, then `trim()`. The part has no '[' left, so the cut changes
   * nothing and the result is the section's text.
   */
  function CutSection(part: string, tag: string): (r: string)
    requires tag != [] && '[' !in part
    ensures r == TagValue(part, tag)
  {
    RemoveAllKeepsOut(part, tag, '[');
    Trim(JavaSplit(RemoveAll(part, tag), '[')[0])
  }

  /** The loop's local variables: the three sections read so far and the action of the recommendation. */
  datatype Sections = Sections(analysis: string, recommendation: string, reason: string, actionType: Option<ActionType>)

  /** One pass of the loop over `part`, a piece of the reply, which has no '['. */
  function ReadPart(acc: Sections, part: string): Sections
    requires '[' !in part
  {
    if StartsWith(part, AnalysisTag) then acc.(analysis := CutSection(part, AnalysisTag))
    else if StartsWith(part, RecommendationTag) then
      var recommendation := CutSection(part, RecommendationTag);
      acc.(recommendation := recommendation, actionType := Some(ActionFor(recommendation)))
    else if StartsWith(part, ReasonTag) then acc.(reason := TagValue(part, ReasonTag))
    else acc
  }

  /** The loop run over `parts` from the start. */
  function ReadParts(parts: seq<string>): Sections
    requires forall i :: 0 <= i < |parts| ==> '[' !in parts[i]
  {
    if parts == [] then Sections("", "", "", None)
    else ReadPart(ReadParts(parts[..|parts| - 1]), parts[|parts| - 1])
  }

  lemma ReadPartsStep(parts: seq<string>, i: nat)
    requires i < |parts| && forall k :: 0 <= k < |parts| ==> '[' !in parts[k]
    ensures ReadParts(parts[..i + 1]) == ReadPart(ReadParts(parts[..i]), parts[i])
  {
    assert parts[..i + 1][..i] == parts[..i];
  }

  /** What the loop leaves is, tag by tag, the text of the last section with that tag. */
  lemma {:induction false} ReadPartsAreLastSections(parts: seq<string>)
    requires forall i :: 0 <= i < |parts| ==> '[' !in parts[i]
    ensures var acc := ReadParts(parts);
      acc.analysis == Section(parts, AnalysisTag) &&
      acc.recommendation == Section(parts, RecommendationTag) &&
      acc.reason == Section(parts, ReasonTag) &&
      acc.actionType == if LastTagged(parts, RecommendationTag).Some? then Some(ActionFor(acc.recommendation)) else None
  {
    if parts != [] {
      var n := |parts| - 1;
      ReadPartsAreLastSections(parts[..n]);
      TagsExclusive(parts[n]);
    }
  }

  /**
   * `parseAnalysisResponse`: one pass over the parts, each tagged part overwriting
   * the section it belongs to, the recommendation classified as it is read.
   */
  method ParseAnalysisResponse(aiResponse: string, current: SystemMetrics) returns (r: AnalysisResult)
    ensures r == Parse(aiResponse, current)
  {
    var analysis, recommendation, reason := "", "", "";
    var actionType: Option<ActionType> := None;
    var parts := JavaSplit(aiResponse, '[');
    var i := 0;
    while i < |parts|
      invariant 0 <= i <= |parts|
      invariant Sections(analysis, recommendation, reason, actionType) == ReadParts(parts[..i])
    {
      var part := parts[i];
      ReadPartsStep(parts, i);
      if StartsWith(part, AnalysisTag) {
        analysis := CutSection(part, AnalysisTag);
      } else if StartsWith(part, RecommendationTag) {
        recommendation := CutSection(part, RecommendationTag);
        actionType := Some(ActionFor(recommendation));
      } else if StartsWith(part, ReasonTag) {
        reason := TagValue(part, ReasonTag);
      }
      i := i + 1;
    }
    assert parts[..|parts|] == parts;
    ReadPartsAreLastSections(parts);
    if recommendation == [] {
      return Fallback(FallbackRuleFor(current));
    }
    return Parsed(analysis, recommendation, reason, actionType.value);
  }

  /** A section reads as the text after its tag, trimmed; a ':' right after the tag stays. */
  lemma TagValueOfTaggedPart(tag: string, text: string)
    requires tag != [] && !Contains(text, tag)
    ensures TagValue(tag + text, tag) == Trim(text)
  {
    var part := tag + text;
    assert part[..|tag|] == tag && part[|tag|..] == text;
  }

  /** A reply with no recommendation section falls back, whatever else it says. */
  lemma NoRecommendationFallsBack(aiResponse: string, current: SystemMetrics)
    requires forall i :: 0 <= i < |JavaSplit(aiResponse, '[')| ==> !StartsWith(JavaSplit(aiResponse, '[')[i], RecommendationTag)
    ensures Parse(aiResponse, current) == Fallback(FallbackRuleFor(current))
  {
    LastTaggedIsLast(JavaSplit(aiResponse, '['), RecommendationTag);
  }

  /** Whatever the reply, the action is the one the classifier gives for the recommendation returned with it. */
  lemma ActionMatchesRecommendation(aiResponse: string, current: SystemMetrics)
    ensures var r := Parse(aiResponse, current);
      ActionOf(r) == ActionFor(RecommendationOf(r)) && RecommendationOf(r) != []
  {
    var r := Parse(aiResponse, current);
    if r.Fallback? {
      FallbackAgreesWithClassifier(r.rule);
    }
  }
}
