/** The dialogue segmenter `split_dialogue` (main.py): raw dialogue text is
    cut into sentences at `.`, `!` and `?`, and the sentences are packed
    greedily into clips of at most `maxWords` words; a sentence that alone
    exceeds the limit is cut into fixed windows of `maxWords` words.

    The module has three layers:
    - tokenising: text -> sentences (`Sentences`) and the reference word list
      of a text (`TextWords`);
    - the source's algorithm, a left fold with an accumulator
      (`Packer`, `Step`, `Fold`, `Finish`, `SplitDialogue`);
    - an accumulator-free reference (`Fit`, `Plan`, `Render`) that says which
      sentences share a clip, proved equal to the fold and used to state the
      clip-level properties. */
module Segmenter {
  import opened Text

  /** The sentence terminators; `!` and `?` are first rewritten to `.`. */
  predicate IsSep(c: char) {
    c == '.' || c == '!' || c == '?'
  }

  /** No terminator occurs in `s`. */
  predicate NoSep(s: string) {
    forall i :: 0 <= i < |s| ==> !IsSep(s[i])
  }

  /** A sentence as the tokeniser yields it: non-empty, stripped, no
      terminator inside. */
  predicate IsSentence(s: string) {
    Stripped(s) && NoSep(s)
  }

  // ---------------------------------------------------------------------
  // Tokenising

  /** `text.replace('!', '.').replace('?', '.')` */
  function Normalise(text: string): (r: string)
    ensures |r| == |text|
    ensures forall i :: 0 <= i < |r| ==> r[i] == (if IsSep(text[i]) then '.' else text[i])
  {
    ReplaceChar(ReplaceChar(text, '!', '.'), '?', '.')
  }

  /** `[p.strip() for p in pieces if p.strip()]` */
  function KeepStripped(pieces: seq<string>): (r: seq<string>)
    ensures |r| <= |pieces|
  {
    if |pieces| == 0 then []
    else
      var s := Strip(pieces[0]);
      var rest := KeepStripped(pieces[1..]);
      if s == [] then rest else [s] + rest
  }

  /** The sentences of `text`, in order (main.py:405-406). */
  function Sentences(text: string): (ss: seq<string>)
    ensures forall i :: 0 <= i < |ss| ==> IsSentence(ss[i])
  {
    var n := Normalise(text);
    var pieces := SplitOn(n, '.');
    SplitOnNoSep(n);
    KeepStrippedSentences(pieces);
    KeepStripped(pieces)
  }

  /** Cutting a text without `!` and `?` at its dots leaves pieces with no
      terminator at all. */
  lemma {:induction false} SplitOnNoSep(s: string)
    requires forall i :: 0 <= i < |s| ==> s[i] != '!' && s[i] != '?'
    ensures forall i :: 0 <= i < |SplitOn(s, '.')| ==> NoSep(SplitOn(s, '.')[i])
    decreases |s|
  {
    if |s| > 0 {
      SplitOnNoSep(s[1..]);
      var rest := SplitOn(s[1..], '.');
      assert NoSep(rest[0]);
      if s[0] != '.' {
        assert NoSep([s[0]] + rest[0]);
      }
    }
  }

  /** Stripping keeps a string free of terminators. */
  lemma StripNoSep(s: string)
    requires NoSep(s)
    ensures NoSep(Strip(s))
  {
    StripIsInfix(s);
  }

  /** Stripping terminator-free pieces and dropping the blank ones leaves
      sentences. */
  lemma {:induction false} KeepStrippedSentences(pieces: seq<string>)
    requires forall i :: 0 <= i < |pieces| ==> NoSep(pieces[i])
    ensures forall i :: 0 <= i < |KeepStripped(pieces)| ==> IsSentence(KeepStripped(pieces)[i])
  {
    if |pieces| > 0 {
      var s := Strip(pieces[0]);
      var rest := KeepStripped(pieces[1..]);
      KeepStrippedSentences(pieces[1..]);
      if s != [] {
        StripNoSep(pieces[0]);
        AllSentencesCons(s, rest);
      }
    }
  }

  lemma AllSentencesCons(s: string, rest: seq<string>)
    requires IsSentence(s)
    requires forall i :: 0 <= i < |rest| ==> IsSentence(rest[i])
    ensures forall i :: 0 <= i < |[s] + rest| ==> IsSentence(([s] + rest)[i])
  {
    forall i | 0 < i < |[s] + rest| ensures IsSentence(([s] + rest)[i]) {
      assert ([s] + rest)[i] == rest[i - 1];
    }
  }

  /** The reference word list of a dialogue: the text split at whitespace,
      with `.`, `!` and `?` read as whitespace too. */
  function TextWords(text: string): seq<string> {
    SplitWords(seq(|text|, i requires 0 <= i < |text| => if IsSep(text[i]) then ' ' else text[i]))
  }

  /** Every sentence has at least one word. */
  lemma SentenceHasWords(s: string)
    requires IsSentence(s)
    ensures |SplitWords(s)| >= 1
  {
    SplitWordsNonEmpty(s);
  }

  /** Dropping the blank pieces and stripping the rest loses no word. */
  lemma {:induction false} KeepStrippedWords(pieces: seq<string>)
    ensures WordsOf(KeepStripped(pieces)) == WordsOf(pieces)
  {
    if |pieces| > 0 {
      KeepStrippedWords(pieces[1..]);
      SplitWordsStrip(pieces[0]);
      var s := Strip(pieces[0]);
      if s != [] {
        assert ([s] + KeepStripped(pieces[1..]))[1..] == KeepStripped(pieces[1..]);
      }
    }
  }

  /** Tokenising into sentences keeps exactly the words of the text, in order. */
  lemma {:induction false} SentencesKeepWords(text: string)
    ensures WordsOf(Sentences(text)) == TextWords(text)
  {
    var n := Normalise(text);
    var pieces := SplitOn(n, '.');
    JoinSplitOnReplaces(n, '.', ' ');
    SplitWordsJoin(pieces, ' ');
    KeepStrippedWords(pieces);
    var blank := seq(|text|, i requires 0 <= i < |text| => if IsSep(text[i]) then ' ' else text[i]);
    assert ReplaceChar(n, '.', ' ') == blank;
  }

  // ---------------------------------------------------------------------
  // Hard split of an over-long sentence

  /** A clip's word limit. Only positive limits are meaningful: with a
      limit of zero the hard split's `range(0, n, 0)` raises. */
  type Limit = m: nat | m >= 1 witness 1

  /** `[words[i:i+m] for i in range(0, len(words), m)]` */
  function Chunks(words: seq<string>, m: Limit): seq<seq<string>>
    decreases |words|
  {
    if |words| == 0 then []
    else
      var k := if m < |words| then m else |words|;
      [words[..k]] + Chunks(words[k..], m)
  }

  /** The windows cover the words in order; each holds between 1 and `m`
      words, and all but the last exactly `m`. */
  lemma {:induction false} ChunksShape(words: seq<string>, m: Limit)
    ensures var cs := Chunks(words, m);
      && Flatten(cs) == words
      && (forall i :: 0 <= i < |cs| ==> 1 <= |cs[i]| <= m)
      && (forall i :: 0 <= i < |cs| - 1 ==> |cs[i]| == m)
    decreases |words|
  {
    if |words| > 0 {
      var k := if m < |words| then m else |words|;
      var cs := Chunks(words, m);
      var rest := Chunks(words[k..], m);
      ChunksShape(words[k..], m);
      assert cs == [words[..k]] + rest;
      assert cs[1..] == rest;
      assert words == words[..k] + words[k..];
      forall i | 0 < i < |cs| ensures cs[i] == rest[i - 1] { }
    }
  }

  function Flatten(xss: seq<seq<string>>): seq<string> {
    if |xss| == 0 then [] else xss[0] + Flatten(xss[1..])
  }

  /** Each window is a run of the sentence's words: whatever holds of every
      word holds of every window's words. */
  lemma {:induction false} ChunksOfWords(words: seq<string>, m: Limit)
    requires AllWords(words)
    requires forall j :: 0 <= j < |words| ==> NoSep(words[j])
    ensures forall i :: 0 <= i < |Chunks(words, m)| ==> AllWords(Chunks(words, m)[i])
    ensures forall i, j :: 0 <= i < |Chunks(words, m)| && 0 <= j < |Chunks(words, m)[i]| ==>
      NoSep(Chunks(words, m)[i][j])
    decreases |words|
  {
    if |words| > 0 {
      var k := if m < |words| then m else |words|;
      ChunksOfWords(words[k..], m);
    }
  }

  /** A sentence of `n` words becomes ceil(n / m) windows: the least count
      whose windows can hold `n` words. */
  lemma {:induction false} ChunksCount(words: seq<string>, m: Limit)
    ensures (|Chunks(words, m)| - 1) * m < |words| <= |Chunks(words, m)| * m
  {
    var cs := Chunks(words, m);
    ChunksShape(words, m);
    if |cs| > 0 {
      FlattenLength(cs, m);
      var l := |cs[|cs| - 1]|;
      assert |cs| * m == (|cs| - 1) * m + m;
    }
  }

  lemma {:induction false} FlattenLength(cs: seq<seq<string>>, m: Limit)
    requires |cs| > 0
    requires forall i :: 0 <= i < |cs| - 1 ==> |cs[i]| == m
    ensures |Flatten(cs)| == (|cs| - 1) * m + |cs[|cs| - 1]|
  {
    if |cs| > 1 {
      FlattenLength(cs[1..], m);
      assert (|cs| - 1) * m == (|cs| - 2) * m + m;
    }
  }

  /** The window clips of an over-long sentence (main.py:423-424). */
  function Windows(words: seq<string>, m: Limit): seq<string>
  {
    JoinEach(Chunks(words, m))
  }

  /** `[" ".join(c) for c in cs]` */
  function JoinEach(cs: seq<seq<string>>): (r: seq<string>)
    ensures |r| == |cs|
  {
    if |cs| == 0 then [] else [Join(cs[0], ' ')] + JoinEach(cs[1..])
  }

  // ---------------------------------------------------------------------
  // The source's fold (main.py:408-439)

  /** The loop state: emitted clips, the pending clip's sentences and its
      running word count. */
  datatype Packer = Packer(clips: seq<string>, current: seq<string>, count: nat)

  /** One iteration of the loop over sentences. */
  function Step(st: Packer, sentence: string, m: Limit): Packer
  {
    var words := SplitWords(sentence);
    if |words| > m then
      var flushed := if st.current != [] then st.clips + [Join(st.current, ' ')] else st.clips;
      Packer(flushed + Windows(words, m), [], 0)
    else if st.count + |words| > m then
      Packer(st.clips + [Join(st.current, ' ')], [sentence], |words|)
    else
      Packer(st.clips, st.current + [sentence], st.count + |words|)
  }

  function Fold(ss: seq<string>, st: Packer, m: Limit): Packer
  {
    if |ss| == 0 then st else Fold(ss[1..], Step(st, ss[0], m), m)
  }

  /** Emitting the final pending clip, if any (main.py:436-437). */
  function Finish(st: Packer): seq<string> {
    if st.current != [] then st.clips + [Join(st.current, ' ')] else st.clips
  }

  /** `split_dialogue(text, maxWords)`. */
  function SplitDialogue(text: string, maxWords: nat): (clips: seq<string>)
    requires maxWords >= 1
    ensures text == [] ==> clips == []
  {
    if text == [] then [] else Finish(Fold(Sentences(text), Packer([], [], 0), maxWords))
  }

  // ---------------------------------------------------------------------
  // Reference: which sentences share a clip

  /** A run of whole sentences that make one clip, or one over-long sentence
      that is cut into windows. */
  datatype Group = Packed(sentences: seq<string>) | Long(sentence: string)

  /** The first sentence a group covers (the empty string for an empty
      run, which no plan contains). */
  function Lead(g: Group): string {
    match g
    case Packed(ss) => if |ss| > 0 then ss[0] else []
    case Long(s) => s
  }

  function Members(g: Group): seq<string> {
    match g
    case Packed(ss) => ss
    case Long(s) => [s]
  }

  /** The sentences a plan covers, in order. */
  function Sources(plan: seq<Group>): seq<string> {
    if |plan| == 0 then [] else Members(plan[0]) + Sources(plan[1..])
  }

  predicate GroupOk(g: Group, m: Limit) {
    match g
    case Packed(ss) => |ss| > 0 && CountWords(ss) <= m
    case Long(s) => |SplitWords(s)| > m
  }

  lemma CountWordsCons(x: string, xs: seq<string>)
    ensures CountWords([x] + xs) == |SplitWords(x)| + CountWords(xs)
  {
    assert ([x] + xs)[1..] == xs;
  }

  lemma CountWordsSnoc(xs: seq<string>, k: nat)
    requires k < |xs|
    ensures CountWords(xs[..k + 1]) == CountWords(xs[..k]) + |SplitWords(xs[k])|
  {
    assert xs[..k + 1] == xs[..k] + [xs[k]];
    WordsOfAppend(xs[..k], [xs[k]]);
    assert WordsOf([xs[k]]) == SplitWords(xs[k]) + WordsOf([]);
  }

  /** How many leading sentences of `ss` still fit into a clip that already
      holds `c` words: the longest prefix whose words, added to `c`, do not
      exceed `m`. */
  function Fit(ss: seq<string>, m: Limit, c: nat): (k: nat)
    ensures k <= |ss|
    ensures |ss| > 0 && c + |SplitWords(ss[0])| <= m ==> k >= 1
  {
    if |ss| == 0 || c + |SplitWords(ss[0])| > m then 0
    else 1 + Fit(ss[1..], m, c + |SplitWords(ss[0])|)
  }

  /** When the first sentence fits, `Fit` takes it and continues on the
      rest with the count raised by its words. */
  lemma FitStep(ss: seq<string>, m: Limit, c: nat)
    requires |ss| > 0 && c + |SplitWords(ss[0])| <= m
    ensures var k' := Fit(ss[1..], m, c + |SplitWords(ss[0])|);
      && Fit(ss, m, c) == 1 + k'
      && ss[..Fit(ss, m, c)] == [ss[0]] + ss[1..][..k']
      && ss[Fit(ss, m, c)..] == ss[1..][k'..]
  {
  }

  /** When the first sentence does not fit, `Fit` takes nothing. */
  lemma FitStops(ss: seq<string>, cur: seq<string>, m: Limit, c: nat)
    requires |ss| == 0 || c + |SplitWords(ss[0])| > m
    ensures Fit(ss, m, c) == 0
    ensures cur + ss[..Fit(ss, m, c)] == cur && ss[Fit(ss, m, c)..] == ss
  {
    assert ss[..0] == [];
  }

  /** `Fit` is the longest prefix that fits: its sentences, added to `c`,
      stay within `m` words, and one more sentence would exceed `m`. */
  lemma {:induction false} FitMaximal(ss: seq<string>, m: Limit, c: nat)
    ensures var k := Fit(ss, m, c);
      && (k > 0 ==> c + CountWords(ss[..k]) <= m)
      && (k < |ss| ==> c + CountWords(ss[..k + 1]) > m)
    decreases |ss|
  {
    var k := Fit(ss, m, c);
    if |ss| == 0 || c + |SplitWords(ss[0])| > m {
      if |ss| > 0 {
        assert ss[..1] == [ss[0]] + [];
        CountWordsCons(ss[0], []);
      }
    } else {
      var w := |SplitWords(ss[0])|;
      var k' := Fit(ss[1..], m, c + w);
      FitMaximal(ss[1..], m, c + w);
      assert ss[..k' + 1] == [ss[0]] + ss[1..][..k'];
      CountWordsCons(ss[0], ss[1..][..k']);
      if k' + 1 < |ss| {
        assert ss[..k' + 2] == [ss[0]] + ss[1..][..k' + 1];
        CountWordsCons(ss[0], ss[1..][..k' + 1]);
      }
    }
  }

  /** The greedy grouping of sentences into clips, without an accumulator:
      an over-long sentence is a group of its own; otherwise the group is the
      longest run of sentences that fits. */
  function Plan(ss: seq<string>, m: Limit): (plan: seq<Group>)
    decreases |ss|
  {
    if |ss| == 0 then []
    else if |SplitWords(ss[0])| > m then [Long(ss[0])] + Plan(ss[1..], m)
    else
      var k := Fit(ss, m, 0);
      [Packed(ss[..k])] + Plan(ss[k..], m)
  }

  /** The first group of a plan, and what follows it. */
  lemma PlanHead(ss: seq<string>, m: Limit)
    requires |ss| > 0
    ensures var plan := Plan(ss, m);
      && |plan| > 0
      && Lead(plan[0]) == ss[0]
      && (plan[0].Long? <==> |SplitWords(ss[0])| > m)
      && (plan[0].Long? ==> plan[0] == Long(ss[0]) && plan[1..] == Plan(ss[1..], m))
      && (plan[0].Packed? ==> plan[0] == Packed(ss[..Fit(ss, m, 0)]) && plan[1..] == Plan(ss[Fit(ss, m, 0)..], m))
  {
    if |SplitWords(ss[0])| <= m {
      FitStep(ss, m, 0);
    }
  }

  /** The plan covers every sentence once, in order: whole sentences are
      never split between groups. */
  lemma SourcesCons(g: Group, rest: seq<Group>)
    ensures Sources([g] + rest) == Members(g) + Sources(rest)
  {
    assert ([g] + rest)[1..] == rest;
  }

  lemma {:induction false} PlanSources(ss: seq<string>, m: Limit)
    ensures Sources(Plan(ss, m)) == ss
    decreases |ss|, 1
  {
    if |ss| > 0 {
      if |SplitWords(ss[0])| > m {
        PlanSourcesLong(ss, m);
      } else {
        PlanSourcesPacked(ss, m);
      }
    }
  }

  lemma {:induction false} PlanSourcesLong(ss: seq<string>, m: Limit)
    requires |ss| > 0 && |SplitWords(ss[0])| > m
    ensures Sources(Plan(ss, m)) == ss
    decreases |ss|, 0
  {
    SourcesCons(Long(ss[0]), Plan(ss[1..], m));
    PlanSources(ss[1..], m);
    assert ss == [ss[0]] + ss[1..];
  }

  lemma {:induction false} PlanSourcesPacked(ss: seq<string>, m: Limit)
    requires |ss| > 0 && |SplitWords(ss[0])| <= m
    ensures Sources(Plan(ss, m)) == ss
    decreases |ss|, 0
  {
    var k := Fit(ss, m, 0);
    PlanPacked(ss, m);
    SourcesCons(Packed(ss[..k]), Plan(ss[k..], m));
    PlanSources(ss[k..], m);
    SplitAt(ss, k);
  }

  /** The plan of sentences whose first one fits: one packed run, then the
      plan of the rest. */
  lemma PlanPacked(ss: seq<string>, m: Limit)
    requires |ss| > 0 && |SplitWords(ss[0])| <= m
    ensures Fit(ss, m, 0) <= |ss|
    ensures Plan(ss, m) == [Packed(ss[..Fit(ss, m, 0)])] + Plan(ss[Fit(ss, m, 0)..], m)
  {
  }

  lemma SplitAt(ss: seq<string>, k: nat)
    requires k <= |ss|
    ensures ss[..k] + ss[k..] == ss
  {
  }




  /** Each run fits in a clip and each over-long sentence stands alone; a
      run closes only because the next sentence would push it past `m`
      words, so reaching exactly `m` words does not close it. */
  lemma {:induction false} PlanGroups(ss: seq<string>, m: Limit)
    ensures var plan := Plan(ss, m);
      && (forall i :: 0 <= i < |plan| ==> GroupOk(plan[i], m))
      && (forall i :: 0 <= i < |plan| - 1 && plan[i].Packed? ==>
            CountWords(plan[i].sentences) + |SplitWords(Lead(plan[i + 1]))| > m)
    decreases |ss|
  {
    if |ss| > 0 {
      var plan := Plan(ss, m);
      PlanHead(ss, m);
      var rest := plan[1..];
      if plan[0].Long? {
        PlanGroups(ss[1..], m);
      } else {
        var k := Fit(ss, m, 0);
        PlanGroups(ss[k..], m);
        FitMaximal(ss, m, 0);
        if k < |ss| {
          CountWordsSnoc(ss, k);
          PlanHead(ss[k..], m);
          assert ss[k..][0] == ss[k];
        }
      }
      assert plan == [plan[0]] + rest;
      assert forall i :: 0 < i < |plan| ==> plan[i] == rest[i - 1];
    }
  }

  function RenderGroup(g: Group, m: Limit): seq<string>
  {
    match g
    case Packed(ss) => [Join(ss, ' ')]
    case Long(s) => Windows(SplitWords(s), m)
  }

  /** The clip texts of a plan, in order. */
  function Render(plan: seq<Group>, m: Limit): seq<string>
  {
    if |plan| == 0 then [] else RenderGroup(plan[0], m) + Render(plan[1..], m)
  }

  // ---------------------------------------------------------------------
  // The fold computes the plan

  lemma RenderCons(g: Group, rest: seq<Group>, m: Limit)
    ensures Render([g] + rest, m) == RenderGroup(g, m) + Render(rest, m)
  {
    assert ([g] + rest)[1..] == rest;
  }

  /** The clips of a plan whose first sentence is over-long. */
  lemma RenderPlanLong(ss: seq<string>, m: Limit)
    requires |ss| > 0 && |SplitWords(ss[0])| > m
    ensures Render(Plan(ss, m), m) == Windows(SplitWords(ss[0]), m) + Render(Plan(ss[1..], m), m)
  {
    RenderCons(Long(ss[0]), Plan(ss[1..], m), m);
  }

  /** The clips of a plan whose first sentence fits. */
  lemma RenderPlanPacked(ss: seq<string>, m: Limit)
    requires |ss| > 0 && |SplitWords(ss[0])| <= m
    ensures var k := Fit(ss, m, 0);
      Render(Plan(ss, m), m) == [Join(ss[..k], ' ')] + Render(Plan(ss[k..], m), m)
  {
    var k := Fit(ss, m, 0);
    RenderCons(Packed(ss[..k]), Plan(ss[k..], m), m);
  }

  /** What the loop, resumed in state `st` on the sentences `ss`, emits by
      the greedy plan: the clips already emitted, then the pending clip
      extended by the sentences that still fit, then the plan of the rest. */
  function Expected(ss: seq<string>, st: Packer, m: Limit): seq<string> {
    if st.current == [] then st.clips + Render(Plan(ss, m), m)
    else
      var k := Fit(ss, m, st.count);
      st.clips + [Join(st.current + ss[..k], ' ')] + Render(Plan(ss[k..], m), m)
  }

  /** A loop state as the loop reaches it: nothing pending means a count of
      zero. */
  predicate Reachable(st: Packer) {
    st.current == [] ==> st.count == 0
  }

  /** One turn of the loop, as an equation on `Fold`. */
  lemma FoldCons(ss: seq<string>, st: Packer, m: Limit)
    requires |ss| > 0
    ensures Fold(ss, st, m) == Fold(ss[1..], Step(st, ss[0], m), m)
    ensures Reachable(Step(st, ss[0], m))
  {
  }

  /** With no sentence left, the expected clips are what `Finish` emits. */
  lemma ExpectedEnd(st: Packer, m: Limit)
    requires Reachable(st)
    ensures Expected([], st, m) == Finish(st)
  {
    var ss: seq<string> := [];
    if st.current != [] {
      FitStops(ss, st.current, m, st.count);
    }
  }

  /** The fold computes, from every reachable state, the clips the plan
      predicts. */
  lemma {:induction false} FoldMatchesPlan(ss: seq<string>, st: Packer, m: Limit)
    requires Reachable(st)
    ensures Finish(Fold(ss, st, m)) == Expected(ss, st, m)
    decreases |ss|
  {
    if |ss| == 0 {
      ExpectedEnd(st, m);
    } else {
      FoldCons(ss, st, m);
      FoldMatchesPlan(ss[1..], Step(st, ss[0], m), m);
      ExpectedStep(ss, st, m);
    }
  }

  /** An over-long sentence is a hard break: whatever is pending is emitted
      first, then the sentence's windows, and the sentences after it give
      the clips they would give on their own. */
  lemma LongSentenceFlushes(ss: seq<string>, st: Packer, m: Limit)
    requires |ss| > 0 && |SplitWords(ss[0])| > m
    ensures Finish(Fold(ss, st, m))
         == Finish(st) + Windows(SplitWords(ss[0]), m) + Finish(Fold(ss[1..], Packer([], [], 0), m))
  {
    var next := Step(st, ss[0], m);
    assert next == Packer(Finish(st) + Windows(SplitWords(ss[0]), m), [], 0);
    FoldCons(ss, st, m);
    FoldMatchesPlan(ss[1..], next, m);
    FoldMatchesPlan(ss[1..], Packer([], [], 0), m);
  }

  /** One turn of the loop keeps the expected clips unchanged. */
  lemma ExpectedStep(ss: seq<string>, st: Packer, m: Limit)
    requires |ss| > 0 && Reachable(st)
    ensures Expected(ss, st, m) == Expected(ss[1..], Step(st, ss[0], m), m)
  {
    var w := |SplitWords(ss[0])|;
    if w > m && st.current != [] {
      ExpectedFlushLong(ss, st, m);
    } else if w > m {
      ExpectedLong(ss, st, m);
    } else if st.current != [] && st.count + w > m {
      ExpectedOverflow(ss, st, m);
    } else if st.current == [] {
      ExpectedStart(ss, st, m);
    } else {
      ExpectedExtend(ss, st, m);
    }
  }

  /** The loop's step on an over-long sentence: what is pending is
      emitted, then the sentence's windows, and nothing stays pending. */
  lemma StepLong(st: Packer, sentence: string, m: Limit)
    requires |SplitWords(sentence)| > m
    ensures Step(st, sentence, m) == Packer(Finish(st) + Windows(SplitWords(sentence), m), [], 0)
  {
  }

  /** With nothing pending, the expected clips are the emitted ones and
      then the plan. */
  lemma ExpectedFresh(ss: seq<string>, st: Packer, m: Limit)
    requires st.current == []
    ensures Expected(ss, st, m) == st.clips + Render(Plan(ss, m), m)
  {
  }

  /** Case of `ExpectedStep`: the next sentence is over-long and nothing
      is pending; its windows are emitted. */
  lemma ExpectedLong(ss: seq<string>, st: Packer, m: Limit)
    requires |ss| > 0 && st.current == [] && |SplitWords(ss[0])| > m
    ensures Expected(ss, st, m) == Expected(ss[1..], Step(st, ss[0], m), m)
  {
    var win := Windows(SplitWords(ss[0]), m);
    var after := Render(Plan(ss[1..], m), m);
    calc {
      Expected(ss, st, m);
    == { ExpectedFresh(ss, st, m); }
      st.clips + Render(Plan(ss, m), m);
    == { RenderPlanLong(ss, m); }
      st.clips + (win + after);
    == { ExpectedFresh(ss[1..], Packer(st.clips + win, [], 0), m); }
      Expected(ss[1..], Packer(st.clips + win, [], 0), m);
    == { StepLong(st, ss[0], m); }
      Expected(ss[1..], Step(st, ss[0], m), m);
    }
  }

  /** When the next sentence does not fit into the pending clip, the
      pending clip is expected as it stands, followed by the plan of all the
      sentences. */
  lemma ExpectedClose(ss: seq<string>, st: Packer, m: Limit)
    requires |ss| > 0 && st.current != [] && st.count + |SplitWords(ss[0])| > m
    ensures Expected(ss, st, m) == (st.clips + [Join(st.current, ' ')]) + Render(Plan(ss, m), m)
  {
    FitStops(ss, st.current, m, st.count);
  }

  /** Case of `ExpectedStep`: the next sentence is over-long; the pending
      clip is emitted, then the sentence's windows. */
  lemma ExpectedFlushLong(ss: seq<string>, st: Packer, m: Limit)
    requires |ss| > 0 && st.current != [] && |SplitWords(ss[0])| > m
    ensures Expected(ss, st, m) == Expected(ss[1..], Step(st, ss[0], m), m)
  {
    var win := Windows(SplitWords(ss[0]), m);
    var after := Render(Plan(ss[1..], m), m);
    var done := st.clips + [Join(st.current, ' ')];
    FlushLongBefore(ss, st, m);
    FlushLongAfter(ss, st, m);
    ConcatAssoc(done, win, after);
  }

  lemma ConcatAssoc(a: seq<string>, b: seq<string>, c: seq<string>)
    ensures a + (b + c) == a + b + c
  {
  }

  lemma FlushLongBefore(ss: seq<string>, st: Packer, m: Limit)
    requires |ss| > 0 && st.current != [] && |SplitWords(ss[0])| > m
    ensures Expected(ss, st, m)
         == (st.clips + [Join(st.current, ' ')]) + (Windows(SplitWords(ss[0]), m) + Render(Plan(ss[1..], m), m))
  {
    ExpectedClose(ss, st, m);
    RenderPlanLong(ss, m);
  }

  lemma FlushLongAfter(ss: seq<string>, st: Packer, m: Limit)
    requires |ss| > 0 && st.current != [] && |SplitWords(ss[0])| > m
    ensures Expected(ss[1..], Step(st, ss[0], m), m)
         == (st.clips + [Join(st.current, ' ')]) + Windows(SplitWords(ss[0]), m) + Render(Plan(ss[1..], m), m)
  {
    StepLong(st, ss[0], m);
    ExpectedFresh(ss[1..], Step(st, ss[0], m), m);
  }


  /** Case of `ExpectedStep`: the next sentence fits alone but not into the
      pending clip, which is emitted; the sentence opens the next one. */
  lemma ExpectedOverflow(ss: seq<string>, st: Packer, m: Limit)
    requires |ss| > 0 && st.current != []
    requires |SplitWords(ss[0])| <= m && st.count + |SplitWords(ss[0])| > m
    ensures Expected(ss, st, m) == Expected(ss[1..], Step(st, ss[0], m), m)
  {
    var w := |SplitWords(ss[0])|;
    var tail := ss[1..];
    var k' := Fit(tail, m, w);
    var done := st.clips + [Join(st.current, ' ')];
    var rest := [Join([ss[0]] + tail[..k'], ' ')] + Render(Plan(tail[k'..], m), m);
    assert Step(st, ss[0], m) == Packer(done, [ss[0]], w);
    assert Expected(tail, Packer(done, [ss[0]], w), m) == done + rest;
    assert Render(Plan(ss, m), m) == rest by {
      FitStep(ss, m, 0);
      RenderPlanPacked(ss, m);
    }
    ExpectedClose(ss, st, m);
  }

  /** Case of `ExpectedStep`: nothing is pending and the next sentence fits;
      it opens the pending clip. */
  lemma ExpectedStart(ss: seq<string>, st: Packer, m: Limit)
    requires |ss| > 0 && st.current == [] && st.count == 0 && |SplitWords(ss[0])| <= m
    ensures Expected(ss, st, m) == Expected(ss[1..], Step(st, ss[0], m), m)
  {
    var w := |SplitWords(ss[0])|;
    var tail := ss[1..];
    var k' := Fit(tail, m, w);
    var rest := [Join([ss[0]] + tail[..k'], ' ')] + Render(Plan(tail[k'..], m), m);
    assert Step(st, ss[0], m) == Packer(st.clips, [ss[0]], w);
    assert Expected(tail, Packer(st.clips, [ss[0]], w), m) == st.clips + rest;
    assert Render(Plan(ss, m), m) == rest by {
      FitStep(ss, m, 0);
      RenderPlanPacked(ss, m);
    }
  }

  /** Case of `ExpectedStep`: the next sentence joins the pending clip. */
  lemma ExpectedExtend(ss: seq<string>, st: Packer, m: Limit)
    requires |ss| > 0 && st.current != []
    requires |SplitWords(ss[0])| <= m && st.count + |SplitWords(ss[0])| <= m
    ensures Expected(ss, st, m) == Expected(ss[1..], Step(st, ss[0], m), m)
  {
    var w := |SplitWords(ss[0])|;
    var tail := ss[1..];
    var next := Packer(st.clips, st.current + [ss[0]], st.count + w);
    StepExtend(st, ss[0], m);
    FitStep(ss, m, st.count);
    var k' := Fit(tail, m, st.count + w);
    var k := Fit(ss, m, st.count);
    ExtendedPending(st.current, ss[0], ss[..k], tail[..k']);
    ExpectedPending(ss, st, m);
    ExpectedPending(tail, next, m);
  }

  /** Taking the sentence into the pending clip first, and the rest of the
      fitting run after it, gives the same clip text. */
  lemma ExtendedPending(cur: seq<string>, s: string, run: seq<string>, rest: seq<string>)
    requires run == [s] + rest
    ensures cur + run == (cur + [s]) + rest
  {
  }

  /** The loop's step on a sentence that still fits: it joins the pending
      clip. */
  lemma StepExtend(st: Packer, sentence: string, m: Limit)
    requires |SplitWords(sentence)| <= m && st.count + |SplitWords(sentence)| <= m
    ensures Step(st, sentence, m)
         == Packer(st.clips, st.current + [sentence], st.count + |SplitWords(sentence)|)
  {
  }

  /** With a clip pending, the expected clips are the emitted ones, the
      pending clip extended by what still fits, then the plan of the rest. */
  lemma ExpectedPending(ss: seq<string>, st: Packer, m: Limit)
    requires st.current != []
    ensures Fit(ss, m, st.count) <= |ss|
    ensures Expected(ss, st, m)
         == st.clips + [Join(st.current + ss[..Fit(ss, m, st.count)], ' ')]
            + Render(Plan(ss[Fit(ss, m, st.count)..], m), m)
  {
  }


  /** `split_dialogue` emits exactly the clips of the greedy plan of the
      text's sentences. */
  lemma SentencesOfEmpty()
    ensures Sentences([]) == []
  {
    assert Normalise([]) == [];
    assert SplitOn([], '.') == [[]];
    assert Strip([]) == [];
    assert KeepStripped([[]]) == KeepStripped([[]][1..]);
  }

  lemma SplitDialogueIsPlan(text: string, m: nat)
    requires m >= 1
    ensures SplitDialogue(text, m) == Render(Plan(Sentences(text), m), m)
  {
    if text == [] {
      SentencesOfEmpty();
    } else {
      FoldMatchesPlan(Sentences(text), Packer([], [], 0), m);
    }
  }


  // ---------------------------------------------------------------------
  // Properties of the clips

  /** Joining terminator-free parts with a space adds no terminator. */
  lemma {:induction false} JoinNoSep(parts: seq<string>)
    requires forall i :: 0 <= i < |parts| ==> NoSep(parts[i])
    ensures NoSep(Join(parts, ' '))
  {
    if |parts| > 1 {
      JoinNoSep(parts[1..]);
      var r := parts[0] + [' '] + Join(parts[1..], ' ');
      forall i | 0 <= i < |r| ensures !IsSep(r[i]) {
        if i < |parts[0]| {
          assert r[i] == parts[0][i];
        } else if i > |parts[0]| {
          assert r[i] == Join(parts[1..], ' ')[i - |parts[0]| - 1];
        }
      }
    }
  }

  /** The words of a terminator-free string are terminator-free. */
  lemma {:induction false} WordsNoSep(s: string)
    requires NoSep(s)
    ensures forall j :: 0 <= j < |SplitWords(s)| ==> NoSep(SplitWords(s)[j])
    decreases |s|
  {
    if |s| > 0 {
      if IsSpace(s[0]) {
        WordsNoSep(s[1..]);
      } else {
        WordsNoSep(s[WordEnd(s)..]);
      }
    }
  }

  /** The windows of a list of words: each splits back to its own chunk. */
  lemma {:induction false} JoinEachWords(cs: seq<seq<string>>)
    requires forall i :: 0 <= i < |cs| ==> AllWords(cs[i])
    ensures WordsOf(JoinEach(cs)) == Flatten(cs)
    ensures forall i :: 0 <= i < |cs| ==> SplitWords(JoinEach(cs)[i]) == cs[i]
  {
    if |cs| > 0 {
      JoinEachWords(cs[1..]);
      SplitJoinedWords(cs[0]);
      assert JoinEach(cs)[1..] == JoinEach(cs[1..]);
    }
  }

  lemma {:induction false} JoinEachNoSep(cs: seq<seq<string>>)
    requires forall i, j :: 0 <= i < |cs| && 0 <= j < |cs[i]| ==> NoSep(cs[i][j])
    ensures forall i :: 0 <= i < |JoinEach(cs)| ==> NoSep(JoinEach(cs)[i])
  {
    if |cs| > 0 {
      JoinEachNoSep(cs[1..]);
      JoinNoSep(cs[0]);
      assert JoinEach(cs)[1..] == JoinEach(cs[1..]);
    }
  }

  /** The windows of an over-long sentence hold its words in order, between
      1 and `m` of them each, and no terminator. */
  lemma WindowsOfSentence(s: string, m: Limit)
    requires IsSentence(s)
    ensures WordsOf(Windows(SplitWords(s), m)) == SplitWords(s)
    ensures AllClipsOk(Windows(SplitWords(s), m), m)
  {
    var words := SplitWords(s);
    SplitWordsAreWords(s);
    WordsNoSep(s);
    ChunksShape(words, m);
    ChunksOfWords(words, m);
    JoinEachWords(Chunks(words, m));
    JoinEachNoSep(Chunks(words, m));
  }

  /** A packed run of sentences as one clip: its words are the sentences'
      words, there are at most `m` of them and at least one. */
  lemma PackedClip(g: seq<string>, m: Limit)
    requires |g| > 0 && CountWords(g) <= m
    requires forall i :: 0 <= i < |g| ==> IsSentence(g[i])
    ensures SplitWords(Join(g, ' ')) == WordsOf(g)
    ensures ClipOk(Join(g, ' '), m)
  {
    SplitWordsJoin(g, ' ');
    SentenceHasWords(g[0]);
    JoinNoSep(g);
  }

  /** A clip as `split_dialogue` promises it: between 1 and `m` words and
      no terminator. */
  predicate ClipOk(clip: string, m: Limit) {
    1 <= |SplitWords(clip)| <= m && NoSep(clip)
  }

  predicate AllClipsOk(clips: seq<string>, m: Limit) {
    forall i :: 0 <= i < |clips| ==> ClipOk(clips[i], m)
  }

  lemma AllClipsOkAppend(a: seq<string>, b: seq<string>, m: Limit)
    requires AllClipsOk(a, m) && AllClipsOk(b, m)
    ensures AllClipsOk(a + b, m)
  {
    forall i | 0 <= i < |a + b| ensures ClipOk((a + b)[i], m) {
      if i >= |a| {
        assert (a + b)[i] == b[i - |a|];
      }
    }
  }

  /** The clips of the plan of a list of sentences carry exactly the
      sentences' words. */
  lemma {:induction false} PlanWords(ss: seq<string>, m: Limit)
    requires forall i :: 0 <= i < |ss| ==> IsSentence(ss[i])
    ensures WordsOf(Render(Plan(ss, m), m)) == WordsOf(ss)
    decreases |ss|, 1
  {
    if |ss| > 0 {
      if |SplitWords(ss[0])| > m {
        PlanWordsLong(ss, m);
      } else {
        PlanWordsPacked(ss, m);
      }
    }
  }

  /** Case of `PlanWords`: the first sentence is over-long. */
  lemma {:induction false} PlanWordsLong(ss: seq<string>, m: Limit)
    requires |ss| > 0 && |SplitWords(ss[0])| > m
    requires forall i :: 0 <= i < |ss| ==> IsSentence(ss[i])
    ensures WordsOf(Render(Plan(ss, m), m)) == WordsOf(ss)
    decreases |ss|, 0
  {
    var win := Windows(SplitWords(ss[0]), m);
    var after := Render(Plan(ss[1..], m), m);
    assert Render(Plan(ss, m), m) == win + after by {
      RenderPlanLong(ss, m);
    }
    assert WordsOf(after) == WordsOf(ss[1..]) by {
      PlanWords(ss[1..], m);
    }
    assert WordsOf(win) == SplitWords(ss[0]) by {
      WindowsOfSentence(ss[0], m);
    }
    WordsOfAppend(win, after);
  }

  /** Case of `PlanWords`: the first sentence opens a packed clip. */
  lemma {:induction false} PlanWordsPacked(ss: seq<string>, m: Limit)
    requires |ss| > 0 && |SplitWords(ss[0])| <= m
    requires forall i :: 0 <= i < |ss| ==> IsSentence(ss[i])
    ensures WordsOf(Render(Plan(ss, m), m)) == WordsOf(ss)
    decreases |ss|, 0
  {
    var k := Fit(ss, m, 0);
    var g := ss[..k];
    var after := Render(Plan(ss[k..], m), m);
    assert Render(Plan(ss, m), m) == [Join(g, ' ')] + after by {
      RenderPlanPacked(ss, m);
    }
    assert WordsOf(after) == WordsOf(ss[k..]) by {
      PlanWords(ss[k..], m);
    }
    assert SplitWords(Join(g, ' ')) == WordsOf(g) by {
      SplitWordsJoin(g, ' ');
    }
    assert WordsOf([Join(g, ' ')] + after) == WordsOf(g) + WordsOf(after) by {
      WordsOfAppend([Join(g, ' ')], after);
      assert WordsOf([Join(g, ' ')]) == SplitWords(Join(g, ' ')) + WordsOf([]);
    }
    assert WordsOf(ss) == WordsOf(g) + WordsOf(ss[k..]) by {
      assert ss == g + ss[k..];
      WordsOfAppend(g, ss[k..]);
    }
  }

  /** Every clip of the plan of a list of sentences has between 1 and `m`
      words and no terminator. */
  lemma {:induction false} PlanClipsOk(ss: seq<string>, m: Limit)
    requires forall i :: 0 <= i < |ss| ==> IsSentence(ss[i])
    ensures AllClipsOk(Render(Plan(ss, m), m), m)
    decreases |ss|
  {
    if |ss| > 0 {
      if |SplitWords(ss[0])| > m {
        var win := Windows(SplitWords(ss[0]), m);
        PlanClipsOk(ss[1..], m);
        RenderPlanLong(ss, m);
        WindowsOfSentence(ss[0], m);
        AllClipsOkAppend(win, Render(Plan(ss[1..], m), m), m);
      } else {
        var k := Fit(ss, m, 0);
        var g := ss[..k];
        PlanClipsOk(ss[k..], m);
        RenderPlanPacked(ss, m);
        FitMaximal(ss, m, 0);
        PackedClip(g, m);
        AllClipsOkAppend([Join(g, ' ')], Render(Plan(ss[k..], m), m), m);
      }
    }
  }

  /** No word of the dialogue is lost, duplicated or reordered: the clips'
      words, read in order, are the text's words with `.`, `!` and `?` read
      as separators. */
  lemma SplitDialogueKeepsWords(text: string, m: nat)
    requires m >= 1
    ensures WordsOf(SplitDialogue(text, m)) == TextWords(text)
  {
    SplitDialogueIsPlan(text, m);
    PlanWords(Sentences(text), m);
    SentencesKeepWords(text);
  }

  /** Every clip has at least one and at most `m` words, the hard-split
      windows included, and no clip contains `.`, `!` or `?`. */
  lemma SplitDialogueClipsBounded(text: string, m: nat)
    requires m >= 1
    ensures AllClipsOk(SplitDialogue(text, m), m)
  {
    SplitDialogueIsPlan(text, m);
    PlanClipsOk(Sentences(text), m);
  }

  /** The result is empty exactly when the text has no word: empty,
      whitespace-only or punctuation-only input. */
  lemma SplitDialogueEmpty(text: string, m: nat)
    requires m >= 1
    ensures SplitDialogue(text, m) == [] <==> TextWords(text) == []
  {
    var clips := SplitDialogue(text, m);
    SplitDialogueKeepsWords(text, m);
    SplitDialogueClipsBounded(text, m);
    if clips != [] {
      assert |SplitWords(clips[0])| >= 1;
      assert WordsOf(clips) == SplitWords(clips[0]) + WordsOf(clips[1..]);
    }
  }
}
