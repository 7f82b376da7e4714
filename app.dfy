/**
 * The page's logic: the analyse handler over the `loading` and `result`
 * state, the analyse button's enabled rule, the verdict colour table, the
 * Quran-consistency colouring and the narrator-chain rendering.
 */
module App {
  import opened Types
  import opened GeminiService

  // ---------------------------------------------------------------------
  // String.prototype.trim
  // ---------------------------------------------------------------------

  /** The code points JavaScript's trim removes: white space and line terminators. */
  predicate IsJsWhitespace(c: char)
  {
    var n := c as int;
    || n == 0x09 || n == 0x0A || n == 0x0B || n == 0x0C || n == 0x0D
    || n == 0x20 || n == 0xA0 || n == 0x1680
    || (0x2000 <= n <= 0x200A)
    || n == 0x2028 || n == 0x2029 || n == 0x202F || n == 0x205F
    || n == 0x3000 || n == 0xFEFF
  }

  /** Index of the first character at or after `i` that is not white space (|s| if there is none). */
  function TrimLow(s: string, i: nat): (lo: nat)
    requires i <= |s|
    ensures i <= lo <= |s|
    ensures forall k :: i <= k < lo ==> IsJsWhitespace(s[k])
    ensures lo < |s| ==> !IsJsWhitespace(s[lo])
    decreases |s| - i
  {
    if i < |s| && IsJsWhitespace(s[i]) then TrimLow(s, i + 1) else i
  }

  /** End of `s[lo..j]` once its trailing white space is dropped. */
  function TrimHigh(s: string, lo: nat, j: nat): (hi: nat)
    requires lo <= j <= |s|
    ensures lo <= hi <= j
    ensures forall k :: hi <= k < j ==> IsJsWhitespace(s[k])
    ensures hi > lo ==> !IsJsWhitespace(s[hi - 1])
    decreases j
  {
    if j > lo && IsJsWhitespace(s[j - 1]) then TrimHigh(s, lo, j - 1) else j
  }

  /**
   * trim(): the input with its leading and trailing white space removed and
   * everything in between kept; empty exactly when the input is all white
   * space, otherwise neither starting nor ending with white space.
   */
  function Trim(s: string): (r: string)
    ensures exists lo, hi :: 0 <= lo <= hi <= |s| && r == s[lo..hi]
              && (forall k :: 0 <= k < lo ==> IsJsWhitespace(s[k]))
              && (forall k :: hi <= k < |s| ==> IsJsWhitespace(s[k]))
    ensures |r| <= |s|
    ensures r == [] <==> forall i :: 0 <= i < |s| ==> IsJsWhitespace(s[i])
    ensures r != [] ==> !IsJsWhitespace(r[0]) && !IsJsWhitespace(r[|r| - 1])
  {
    var lo := TrimLow(s, 0);
    var hi := TrimHigh(s, lo, |s|);
    s[lo..hi]
  }

  /** The handler's guard: the input is empty once trimmed. */
  predicate IsBlank(input: string)
  {
    Trim(input) == []
  }

  /** The analyse button is disabled while loading or while the input, untrimmed, is empty. */
  predicate ButtonDisabled(loading: bool, input: string)
  {
    loading || input == ""
  }

  /**
   * The button and the handler test different things: an input of white space
   * only enables the button, yet pressing it does nothing.
   */
  lemma WhitespaceEnablesIgnoredButton(input: string)
    requires input != [] && forall i :: 0 <= i < |input| ==> IsJsWhitespace(input[i])
    ensures !ButtonDisabled(false, input) && IsBlank(input)
  {
  }

  /** An idle button is enabled exactly for a non-empty input, of which the blank ones are ignored by the handler. */
  lemma EnabledButtonCases(input: string)
    ensures !ButtonDisabled(false, input) <==> input != []
    ensures input == [] ==> IsBlank(input)
    ensures !IsBlank(input) ==> !ButtonDisabled(false, input)
  {
  }

  // ---------------------------------------------------------------------
  // The analyse handler
  // ---------------------------------------------------------------------

  /** The pair of state variables a render sees. */
  datatype ViewState = ViewState(loading: bool, result: Option<AnalysisResult>)

  /** The page component's state. */
  class AnalyzerView {
    var inputText: string
    var loading: bool
    var result: Option<AnalysisResult>
    /** The (loading, result) states the handler has published, oldest first. */
    ghost var trace: seq<ViewState>

    constructor ()
      ensures inputText == "" && !loading && result == None
      ensures trace == [ViewState(false, None)]
    {
      inputText := "";
      loading := false;
      result := None;
      trace := [ViewState(false, None)];
    }

    /** The text area's change handler. */
    method SetInputText(text: string)
      modifies this`inputText
      ensures inputText == text
    {
      inputText := text;
    }

    /**
     * handleAnalyze, one call at a time. A blank input changes nothing.
     * Otherwise it publishes (loading, no result), calls the service, and
     * publishes (not loading, the returned result); when the call throws,
     * the result stays empty and the alert is raised.
     */
    method HandleAnalyze(apiKey: string, service: Request -> Reply, parse: string -> Option<AnalysisResult>)
      returns (alerted: bool)
      modifies this`loading, this`result, this`trace
      ensures IsBlank(inputText) ==>
                && loading == old(loading) && result == old(result) && trace == old(trace)
                && !alerted
      ensures !IsBlank(inputText) ==>
                var call := AnalyzeHadith(apiKey, inputText, service, parse);
                && !loading
                && alerted == call.outcome.Threw?
                && result == (if call.outcome.Returned? then Some(call.outcome.value) else None)
                && trace == old(trace) + [ViewState(true, None)] + [ViewState(false, result)]
      ensures !IsBlank(inputText) && apiKey != "" ==> result.Some? && !alerted
    {
      alerted := false;
      if IsBlank(inputText) {
        return;
      }
      loading := true;
      result := None;
      trace := trace + [ViewState(loading, result)];
      var call := AnalyzeHadith(apiKey, inputText, service, parse);
      if call.outcome.Returned? {
        result := Some(call.outcome.value);
      } else {
        alerted := true;
      }
      loading := false;
      trace := trace + [ViewState(loading, result)];
    }
  }

  // ---------------------------------------------------------------------
  // Verdict colours
  // ---------------------------------------------------------------------

  const SahihColor: string := "text-emerald-800 bg-emerald-50 border-emerald-300 ring-4 ring-emerald-100"
  const HasanColor: string := "text-teal-700 bg-teal-50 border-teal-300"
  const GharibColor: string := "text-amber-700 bg-amber-50 border-amber-300"
  const MawduColor: string := "text-rose-800 bg-rose-50 border-rose-300 ring-4 ring-rose-100"
  const DefaultVerdictColor: string := "text-slate-600 bg-slate-50 border-slate-300"

  /** The five colour strings are pairwise different. */
  lemma ColorsDiffer()
    ensures |{SahihColor, HasanColor, GharibColor, MawduColor, DefaultVerdictColor}| == 5
  {
    assert |SahihColor| == 73 && |HasanColor| == 40 && |GharibColor| == 43;
    assert |MawduColor| == 61 && |DefaultVerdictColor| == 43;
    assert GharibColor[38] == 'r' && DefaultVerdictColor[38] == 'e';
  }

  /** The colour table: the class string each verdict is shown in. */
  function VerdictClass(v: Verdict): string
  {
    match v
    case SAHIH => SahihColor
    case HASAN => HasanColor
    case GHARIB => GharibColor
    case MAWDU => MawduColor
  }

  /**
   * getVerdictColor: a verdict label gets its verdict's entry of the table,
   * and the default colour is given exactly to strings that are not one of
   * the four labels.
   */
  function VerdictColor(v: string): (c: string)
    ensures ParseVerdict(v).Some? ==> c == VerdictClass(ParseVerdict(v).value)
    ensures c == DefaultVerdictColor <==> ParseVerdict(v).None?
    ensures c in {SahihColor, HasanColor, GharibColor, MawduColor, DefaultVerdictColor}
  {
    ColorsDiffer();
    if v == Label(SAHIH) then SahihColor
    else if v == Label(HASAN) then HasanColor
    else if v == Label(GHARIB) then GharibColor
    else if v == Label(MAWDU) then MawduColor
    else DefaultVerdictColor
  }

  /** The four verdicts get four different colours. */
  lemma VerdictColorsDistinct(a: Verdict, b: Verdict)
    ensures VerdictColor(Label(a)) == VerdictColor(Label(b)) <==> a == b
  {
    ColorsDiffer();
    ParseLabel(a);
    ParseLabel(b);
  }

  // ---------------------------------------------------------------------
  // Quran-consistency colouring
  // ---------------------------------------------------------------------

  /** Strict threshold above which the Quran-consistency figure is shown in emerald. */
  const QuranHighlightThreshold: real := 0.8

  /** The classes of the Quran-consistency figure and of its progress bar. */
  datatype QuranClasses = QuranClasses(figure: string, bar: string)

  const QuranEmerald: QuranClasses := QuranClasses("text-emerald-700", "bg-emerald-600")
  const QuranRose: QuranClasses := QuranClasses("text-rose-600", "bg-rose-500")

  /** Figure and bar are coloured together, by one strict comparison with the threshold. */
  function QuranColours(q: real): (c: QuranClasses)
    ensures c == QuranEmerald || c == QuranRose
  {
    QuranClasses(
      if q > QuranHighlightThreshold then "text-emerald-700" else "text-rose-600",
      if q > QuranHighlightThreshold then "bg-emerald-600" else "bg-rose-500")
  }

  /** Both are emerald strictly above 0.8 and both rose otherwise, 0.8 itself included. */
  lemma QuranColoursAgree(q: real)
    ensures QuranColours(q) == QuranEmerald <==> q > 0.8
    ensures QuranColours(q) == QuranRose <==> q <= 0.8
    ensures QuranColours(0.8) == QuranRose
  {
    assert QuranEmerald.figure[5] != QuranRose.figure[5];
  }

  // ---------------------------------------------------------------------
  // Narrator chain
  // ---------------------------------------------------------------------

  /** What the chain section lays out: a numbered narrator, or the "عن" connector between two narrators. */
  datatype ChainItem = Badge(number: nat, name: string) | Connector

  /**
   * The items the chain's map callback produces from position `idx` on: the
   * narrator numbered idx + 1, followed by a connector when idx < N - 1.
   */
  function ChainFrom(chain: seq<string>, idx: nat): (items: seq<ChainItem>)
    requires idx <= |chain|
    ensures |items| == if idx == |chain| then 0 else 2 * (|chain| - idx) - 1
    ensures idx < |chain| ==> items[0] == Badge(idx + 1, chain[idx])
    decreases |chain| - idx
  {
    if idx == |chain| then []
    else
      [Badge(idx + 1, chain[idx])]
      + (if idx < |chain| - 1 then [Connector] else [])
      + ChainFrom(chain, idx + 1)
  }

  /** The chain section, when it is shown: only for a present, non-empty chain. */
  function ChainSection(chain: Option<seq<string>>): (section: Option<seq<ChainItem>>)
    ensures section.Some? <==> chain.Some? && |chain.value| > 0
    ensures section.Some? ==> |section.value| == 2 * |chain.value| - 1
  {
    if chain.Some? && |chain.value| > 0 then Some(ChainFrom(chain.value, 0)) else None
  }

  /** Narrator i sits at position 2(i - idx), numbered i + 1, with a connector right after it unless it is the last. */
  lemma {:induction false} ChainLayout(chain: seq<string>, idx: nat, i: nat)
    requires idx <= i < |chain|
    ensures ChainFrom(chain, idx)[2 * (i - idx)] == Badge(i + 1, chain[i])
    ensures i < |chain| - 1 ==> ChainFrom(chain, idx)[2 * (i - idx) + 1] == Connector
    decreases i - idx
  {
    var items := ChainFrom(chain, idx);
    if i == idx {
      if i < |chain| - 1 {
        assert items == [Badge(idx + 1, chain[idx])] + [Connector] + ChainFrom(chain, idx + 1);
      }
    } else {
      ChainLayout(chain, idx + 1, i);
      var rest := ChainFrom(chain, idx + 1);
      assert items == [Badge(idx + 1, chain[idx]), Connector] + rest;
      assert items[2 * (i - idx)] == rest[2 * (i - (idx + 1))];
      if i < |chain| - 1 {
        assert items[2 * (i - idx) + 1] == rest[2 * (i - (idx + 1)) + 1];
      }
    }
  }

  /** Number of connectors in a laid-out chain. */
  function Connectors(items: seq<ChainItem>): nat
  {
    if items == [] then 0 else (if items[0].Connector? then 1 else 0) + Connectors(items[1..])
  }

  /** Number of numbered narrators in a laid-out chain. */
  function Badges(items: seq<ChainItem>): nat
  {
    if items == [] then 0 else (if items[0].Badge? then 1 else 0) + Badges(items[1..])
  }

  lemma {:induction false} CountsAppend(a: seq<ChainItem>, b: seq<ChainItem>)
    ensures Connectors(a + b) == Connectors(a) + Connectors(b)
    ensures Badges(a + b) == Badges(a) + Badges(b)
  {
    if a != [] {
      CountsAppend(a[1..], b);
      assert (a + b)[0] == a[0];
      assert (a + b)[1..] == a[1..] + b;
    } else {
      assert a + b == b;
    }
  }

  /** From position idx on there are N - idx narrators and one connector fewer. */
  lemma {:induction false} ChainFromCounts(chain: seq<string>, idx: nat)
    requires idx < |chain|
    ensures Badges(ChainFrom(chain, idx)) == |chain| - idx
    ensures Connectors(ChainFrom(chain, idx)) == |chain| - idx - 1
    decreases |chain| - idx
  {
    var head: seq<ChainItem> := [Badge(idx + 1, chain[idx])] + (if idx < |chain| - 1 then [Connector] else []);
    var rest := ChainFrom(chain, idx + 1);
    assert ChainFrom(chain, idx) == head + rest;
    CountsAppend(head, rest);
    if idx < |chain| - 1 {
      ChainFromCounts(chain, idx + 1);
      assert head == [Badge(idx + 1, chain[idx]), Connector];
      assert Badges(head) == 1 + Badges(head[1..]) && head[1..] == [Connector];
      assert Connectors(head) == Connectors(head[1..]) && head[1..][1..] == [];
    } else {
      assert head == [Badge(idx + 1, chain[idx])] && head[1..] == [];
    }
  }

  /** A shown chain of N narrators has N numbered narrators and exactly N - 1 connectors. */
  lemma ChainSectionCounts(chain: Option<seq<string>>)
    requires ChainSection(chain).Some?
    ensures Badges(ChainSection(chain).value) == |chain.value|
    ensures Connectors(ChainSection(chain).value) == |chain.value| - 1
  {
    ChainFromCounts(chain.value, 0);
  }
}
