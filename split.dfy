/**
 * The dataset converter: it turns the first turn of every conversation of
 * a corpus into a labelled utterance (an intent name and character spans of
 * the entities), and splits the utterances into a train prefix and a test
 * suffix. Models tools/train_test_split.py without its file I/O.
 */
module Split {

  /** The entity kinds the converter keeps. */
  const Labels: seq<string> := ["dst_city", "or_city", "str_date", "end_date", "budget"]

  /** An argument value meaning "absent". */
  const Sentinel: string := "-1"

  /** The argument key that carries the intent name. */
  const IntentKey: string := "intent"

  /** The intent name used when a turn names none. */
  const DefaultIntent: string := "book"

  datatype Option<T> = None | Some(value: T)

  /** Why a conversion aborts: the exceptions the converter lets escape. */
  datatype Failure =
    | KeyMissing(field: string)   // KeyError on a missing argument field
    | NotFound(literal: string)   // ValueError from str.index: literal not in the text
    | NoTurns                     // IndexError: a conversation without turns

  datatype Result<T, E> = Ok(value: T) | Err(error: E)

  /** The requested size is not a valid fraction, or the sizes cannot be compared. */
  datatype SizeError =
    | WrongTestSize    // "Wrong value for test size"
    | WrongTrainSize   // "Wrong value for train size"
    | SumOverOne       // "Sum of train size and test size is over 100%"
    | NoneCompared     // TypeError: test size left None and compared with a number

  /** A half-open character range. */
  datatype Span = Span(start: nat, end: nat)

  datatype EntityLabel = EntityLabel(startCharIndex: nat, endCharIndex: nat, entityName: string)

  /** One `{key, val}` argument of an act; either field may be missing. */
  datatype Arg = Arg(key: Option<string>, val: Option<string>)

  /** An act is its list of arguments. */
  type Act = seq<Arg>

  datatype Turn = Turn(text: string, acts: seq<Act>)

  /** A conversation is its list of turns. */
  type Conversation = seq<Turn>

  datatype Utterance = Utterance(text: string, intentName: string, entityLabels: seq<EntityLabel>)

  // ---------------------------------------------------------------------------
  // Span finder (get_entity_index)
  // ---------------------------------------------------------------------------

  /** ASCII lower-casing of one character. */
  function LowerChar(c: char): char
  {
    if 'A' <= c <= 'Z' then (c as int + 32) as char else c
  }

  /** `str.lower()` as a per-character map; it keeps the length. */
  function Lower(s: string): string
  {
    seq(|s|, i requires 0 <= i < |s| => LowerChar(s[i]))
  }

  /** `needle` occurs in `hay` starting at position `i`. */
  predicate OccursAt(hay: string, needle: string, i: nat)
  {
    i + |needle| <= |hay| && hay[i..i + |needle|] == needle
  }

  /** The first position at or after `from` where `needle` occurs in `hay` (`str.index`). */
  function IndexFrom(hay: string, needle: string, from: nat): (r: Option<nat>)
    decreases |hay| - from
    ensures r.Some? ==> from <= r.value && OccursAt(hay, needle, r.value)
    ensures r.Some? ==> forall j :: from <= j < r.value ==> !OccursAt(hay, needle, j)
    ensures r.None? ==> forall j: nat :: from <= j ==> !OccursAt(hay, needle, j)
  {
    if from + |needle| > |hay| then None
    else if hay[from..from + |needle|] == needle then Some(from)
    else IndexFrom(hay, needle, from + 1)
  }

  /** `start` is the first case-insensitive occurrence of `literal` in `text`. */
  predicate FirstOccurrence(text: string, literal: string, start: nat)
  {
    && start + |literal| <= |text|
    && Lower(text[start..start + |literal|]) == Lower(literal)
    && forall j :: 0 <= j < start ==> !OccursAt(Lower(text), Lower(literal), j)
  }

  /** `literal` occurs nowhere in `text`, ignoring case. */
  ghost predicate Absent(text: string, literal: string)
  {
    forall j: nat :: !OccursAt(Lower(text), Lower(literal), j)
  }

  lemma LowerSlice(s: string, i: nat, j: nat)
    requires i <= j <= |s|
    ensures Lower(s[i..j]) == Lower(s)[i..j]
  {
  }

  /** get_entity_index: the span of the first case-insensitive occurrence, or NotFound. */
  function GetEntityIndex(text: string, literal: string): (r: Result<Span, Failure>)
    ensures r.Ok? ==> r.value.end == r.value.start + |literal|
    ensures r.Ok? ==> FirstOccurrence(text, literal, r.value.start)
    ensures r.Err? <==> Absent(text, literal)
    ensures r.Err? ==> r.error == NotFound(literal)
  {
    match IndexFrom(Lower(text), Lower(literal), 0)
    case None => Err(NotFound(literal))
    case Some(start) =>
      LowerSlice(text, start, start + |literal|);
      Ok(Span(start, start + |literal|))
  }

  /** GetEntityIndex finds every first occurrence: the converse of its contract. */
  lemma {:induction false} FirstOccurrenceFound(text: string, literal: string, start: nat)
    requires FirstOccurrence(text, literal, start)
    ensures GetEntityIndex(text, literal) == Ok(Span(start, start + |literal|))
  {
    LowerSlice(text, start, start + |literal|);
    assert OccursAt(Lower(text), Lower(literal), start);
  }

  lemma Mismatch(hay: string, needle: string, j: nat, k: nat)
    requires k < |needle| && j + k < |hay| && hay[j + k] != needle[k]
    ensures !OccursAt(hay, needle, j)
  {
    if j + |needle| <= |hay| {
      assert hay[j..j + |needle|][k] == hay[j + k];
    }
  }

  // ---------------------------------------------------------------------------
  // Argument filter (get_entity)
  // ---------------------------------------------------------------------------

  /** The argument yields no label: no value, the sentinel, no key or an unknown key. */
  predicate Skipped(arg: Arg)
  {
    arg.val.None? || arg.val.value == Sentinel || arg.key.None? || arg.key.value !in Labels
  }

  /** get_entity: an entity label, nothing, or the NotFound that escapes it. */
  function GetEntity(arg: Arg, text: string): (r: Result<Option<EntityLabel>, Failure>)
    ensures r == Ok(None) <==> Skipped(arg)
    ensures !Skipped(arg) ==> (r.Err? <==> Absent(text, arg.val.value))
    ensures r.Err? ==> r.error == NotFound(arg.val.value)
    ensures r.Ok? && r.value.Some? ==>
      && !Skipped(arg)
      && r.value.value.entityName == arg.key.value
      && r.value.value.endCharIndex == r.value.value.startCharIndex + |arg.val.value|
      && FirstOccurrence(text, arg.val.value, r.value.value.startCharIndex)
  {
    match arg.val
    case None => Ok(None)
    case Some(val) =>
      if val == Sentinel then Ok(None)
      else
        match arg.key
        case None => Ok(None)
        case Some(key) =>
          if key in Labels then
            match GetEntityIndex(text, val)
            case Err(e) => Err(e)
            case Ok(span) => Ok(Some(EntityLabel(span.start, span.end, key)))
          else Ok(None)
  }

  /** An argument that is not skipped yields the label of the first occurrence of its value: the converse of GetEntity's contract. */
  lemma LabelFound(arg: Arg, text: string, start: nat)
    requires !Skipped(arg)
    requires FirstOccurrence(text, arg.val.value, start)
    ensures GetEntity(arg, text) == Ok(Some(EntityLabel(start, start + |arg.val.value|, arg.key.value)))
  {
    FirstOccurrenceFound(text, arg.val.value, start);
  }

  // ---------------------------------------------------------------------------
  // Turn extractor (get_intents), specified on the flat list of arguments
  // ---------------------------------------------------------------------------

  /** The arguments of all acts, in act order. */
  function Flatten(acts: seq<Act>): seq<Arg>
  {
    if acts == [] then [] else Flatten(acts[..|acts| - 1]) + acts[|acts| - 1]
  }

  predicate IsIntent(arg: Arg)
  {
    arg.key == Some(IntentKey)
  }

  /** The exception processing one argument raises, if any. */
  function ArgFailure(arg: Arg, text: string): Option<Failure>
  {
    if arg.key.None? then Some(KeyMissing("key"))
    else if IsIntent(arg) then (if arg.val.None? then Some(KeyMissing("val")) else None)
    else match GetEntity(arg, text)
      case Err(e) => Some(e)
      case Ok(_) => None
  }

  /** The exception of the first argument that raises one. */
  function FirstFailure(args: seq<Arg>, text: string): Option<Failure>
  {
    if args == [] then None
    else
      var prior := FirstFailure(args[..|args| - 1], text);
      if prior.Some? then prior else ArgFailure(args[|args| - 1], text)
  }

  /** The value of the last intent argument, "" when there is none. */
  function LastIntent(args: seq<Arg>): string
  {
    if args == [] then ""
    else
      var arg := args[|args| - 1];
      if IsIntent(arg) && arg.val.Some? then arg.val.value else LastIntent(args[..|args| - 1])
  }

  /** The labels that the non-intent arguments yield, in argument order. */
  function Collected(args: seq<Arg>, text: string): seq<EntityLabel>
  {
    if args == [] then []
    else
      var arg := args[|args| - 1];
      var prior := Collected(args[..|args| - 1], text);
      if IsIntent(arg) then prior
      else match GetEntity(arg, text)
        case Ok(Some(found)) => prior + [found]
        case _ => prior
  }

  /** The outcome get_intents promises: intent name (defaulted) and labels, or the first exception. */
  function ExtractTurn(acts: seq<Act>, text: string): Result<(string, seq<EntityLabel>), Failure>
  {
    var args := Flatten(acts);
    match FirstFailure(args, text)
    case Some(e) => Err(e)
    case None =>
      var name := LastIntent(args);
      Ok((if name == "" then DefaultIntent else name, Collected(args, text)))
  }

  lemma {:induction false} FlattenAppend(a: seq<Act>, b: seq<Act>)
    ensures Flatten(a + b) == Flatten(a) + Flatten(b)
    decreases |b|
  {
    if b == [] {
      assert a + b == a;
    } else {
      var b' := b[..|b| - 1];
      assert (a + b)[..|a + b| - 1] == a + b';
      FlattenAppend(a, b');
    }
  }

  /** The first exception stops the walk: later arguments do not change it. */
  lemma {:induction false} FailurePersists(s: seq<Arg>, t: seq<Arg>, text: string)
    requires FirstFailure(s, text).Some?
    ensures FirstFailure(s + t, text) == FirstFailure(s, text)
    decreases |t|
  {
    if t == [] {
      assert s + t == s;
    } else {
      var t' := t[..|t| - 1];
      assert (s + t)[..|s + t| - 1] == s + t';
      FailurePersists(s, t', text);
    }
  }

  lemma FlattenNext(acts: seq<Act>, i: nat)
    requires i < |acts|
    ensures Flatten(acts[..i + 1]) == Flatten(acts[..i]) + acts[i]
  {
    assert acts[..i + 1][..i] == acts[..i];
  }

  /** How the specification of get_intents moves on by one argument. */
  lemma ExtendByArg(done: seq<Arg>, arg: Arg, text: string)
    ensures FirstFailure(done + [arg], text) ==
      if FirstFailure(done, text).Some? then FirstFailure(done, text) else ArgFailure(arg, text)
    ensures LastIntent(done + [arg]) ==
      if IsIntent(arg) && arg.val.Some? then arg.val.value else LastIntent(done)
    ensures !IsIntent(arg) && GetEntity(arg, text).Ok? && GetEntity(arg, text).value.Some? ==>
      Collected(done + [arg], text) == Collected(done, text) + [GetEntity(arg, text).value.value]
    ensures IsIntent(arg) || GetEntity(arg, text) == Ok(None) ==>
      Collected(done + [arg], text) == Collected(done, text)
  {
    assert (done + [arg])[..|done|] == done;
  }

  /** How the specification moves on by argument `j` of the current act, after the arguments `before`. */
  lemma ArgStep(before: seq<Arg>, act: Act, j: nat, text: string)
    requires j < |act|
    ensures var done, arg := before + act[..j], act[j];
      && FirstFailure(before + act[..j + 1], text) ==
         (if FirstFailure(done, text).Some? then FirstFailure(done, text) else ArgFailure(arg, text))
      && LastIntent(before + act[..j + 1]) ==
         (if IsIntent(arg) && arg.val.Some? then arg.val.value else LastIntent(done))
      && (!IsIntent(arg) && GetEntity(arg, text).Ok? && GetEntity(arg, text).value.Some? ==>
          Collected(before + act[..j + 1], text) == Collected(done, text) + [GetEntity(arg, text).value.value])
      && (IsIntent(arg) || GetEntity(arg, text) == Ok(None) ==>
          Collected(before + act[..j + 1], text) == Collected(done, text))
  {
    assert before + act[..j + 1] == before + act[..j] + [act[j]];
    ExtendByArg(before + act[..j], act[j], text);
  }

  /** Once the arguments of acts[..i+1] raise, the whole turn fails with that exception. */
  lemma AbortAfter(acts: seq<Act>, i: nat, text: string)
    requires i < |acts|
    requires FirstFailure(Flatten(acts[..i + 1]), text).Some?
    ensures ExtractTurn(acts, text) == Err(FirstFailure(Flatten(acts[..i + 1]), text).value)
  {
    assert acts == acts[..i + 1] + acts[i + 1..];
    FlattenAppend(acts[..i + 1], acts[i + 1..]);
    FailurePersists(Flatten(acts[..i + 1]), Flatten(acts[i + 1..]), text);
  }

  /**
   * The inner loop of get_intents: walks the arguments of one act after the
   * arguments `before`, carrying the intent name and the labels so far, and
   * stops at the first argument that raises.
   */
  method WalkAct(act: Act, intentText: string, ghost before: seq<Arg>, intentName0: string, labels0: seq<EntityLabel>)
    returns (failure: Option<Failure>, intentName: string, entityLabels: seq<EntityLabel>)
    requires FirstFailure(before, intentText) == None
    requires intentName0 == LastIntent(before) && labels0 == Collected(before, intentText)
    ensures failure == FirstFailure(before + act, intentText)
    ensures failure.None? ==> intentName == LastIntent(before + act) && entityLabels == Collected(before + act, intentText)
  {
    intentName, entityLabels := intentName0, labels0;
    assert before + act[..0] == before;
    var j := 0;
    while j < |act|
      invariant 0 <= j <= |act|
      invariant FirstFailure(before + act[..j], intentText) == None
      invariant intentName == LastIntent(before + act[..j])
      invariant entityLabels == Collected(before + act[..j], intentText)
    {
      var arg := act[j];
      ArgStep(before, act, j, intentText);
      if arg.key.None? {
        FailureRest(before, act, j, intentText);
        return Some(KeyMissing("key")), intentName, entityLabels;
      }
      if IsIntent(arg) {
        if arg.val.None? {
          FailureRest(before, act, j, intentText);
          return Some(KeyMissing("val")), intentName, entityLabels;
        }
        intentName := arg.val.value;
        j := j + 1;
        continue;
      }
      var entityLabel := GetEntity(arg, intentText);
      match entityLabel {
        case Err(e) =>
          FailureRest(before, act, j, intentText);
          return Some(e), intentName, entityLabels;
        case Ok(Some(found)) =>
          entityLabels := entityLabels + [found];
        case Ok(None) =>
      }
      j := j + 1;
    }
    assert act[..|act|] == act;
    return None, intentName, entityLabels;
  }

  /** An argument that raises after arguments that raise nothing decides the failure of the whole act. */
  lemma FailureRest(before: seq<Arg>, act: Act, j: nat, text: string)
    requires j < |act|
    requires FirstFailure(before + act[..j], text) == None
    requires ArgFailure(act[j], text).Some?
    ensures FirstFailure(before + act, text) == ArgFailure(act[j], text)
  {
    ArgStep(before, act, j, text);
    assert before + act == (before + act[..j + 1]) + act[j + 1..];
    FailurePersists(before + act[..j + 1], act[j + 1..], text);
  }

  /** get_intents: walks the acts and their arguments once, in order. */
  method GetIntents(turn: Turn, intentText: string) returns (r: Result<(string, seq<EntityLabel>), Failure>)
    ensures r == ExtractTurn(turn.acts, intentText)
  {
    var acts := turn.acts;
    var entityLabels: seq<EntityLabel> := [];
    var intentName := "";
    var i := 0;
    while i < |acts|
      invariant 0 <= i <= |acts|
      invariant FirstFailure(Flatten(acts[..i]), intentText) == None
      invariant intentName == LastIntent(Flatten(acts[..i]))
      invariant entityLabels == Collected(Flatten(acts[..i]), intentText)
    {
      FlattenNext(acts, i);
      var failure;
      failure, intentName, entityLabels := WalkAct(acts[i], intentText, Flatten(acts[..i]), intentName, entityLabels);
      if failure.Some? {
        AbortAfter(acts, i, intentText);
        return Err(failure.value);
      }
      i := i + 1;
    }
    assert acts[..|acts|] == acts;
    if intentName == "" {
      intentName := DefaultIntent;
    }
    return Ok((intentName, entityLabels));
  }

  /** The last intent argument wins: later non-intent arguments do not change the name. */
  lemma {:induction false} LastIntentWins(args: seq<Arg>, k: nat)
    requires k < |args| && IsIntent(args[k]) && args[k].val.Some?
    requires forall j :: k < j < |args| ==> !IsIntent(args[j])
    ensures LastIntent(args) == args[k].val.value
    decreases |args|
  {
    if k < |args| - 1 {
      LastIntentWins(args[..|args| - 1], k);
    }
  }

  /** With no intent argument, the name is empty, so a turn defaults to "book". */
  lemma {:induction false} NoIntentIsBook(acts: seq<Act>, text: string)
    requires forall j :: 0 <= j < |Flatten(acts)| ==> !IsIntent(Flatten(acts)[j])
    requires ExtractTurn(acts, text).Ok?
    ensures ExtractTurn(acts, text).value.0 == DefaultIntent
  {
    NoIntentIsEmpty(Flatten(acts));
  }

  lemma {:induction false} NoIntentIsEmpty(args: seq<Arg>)
    requires forall j :: 0 <= j < |args| ==> !IsIntent(args[j])
    ensures LastIntent(args) == ""
    decreases |args|
  {
    if args != [] {
      NoIntentIsEmpty(args[..|args| - 1]);
    }
  }

  /** Labels are appended in argument order: the labels of a concatenation concatenate. */
  lemma {:induction false} CollectedAppend(s: seq<Arg>, t: seq<Arg>, text: string)
    ensures Collected(s + t, text) == Collected(s, text) + Collected(t, text)
    decreases |t|
  {
    if t == [] {
      assert s + t == s;
    } else {
      var t' := t[..|t| - 1];
      assert (s + t)[..|s + t| - 1] == s + t';
      CollectedAppend(s, t', text);
    }
  }

  /** An intent argument or a sentinel-valued argument contributes no label, wherever it stands. */
  lemma IgnoredArgument(s: seq<Arg>, arg: Arg, t: seq<Arg>, text: string)
    requires IsIntent(arg) || arg.val == Some(Sentinel)
    ensures Collected(s + [arg] + t, text) == Collected(s + t, text)
  {
    CollectedAppend(s + [arg], t, text);
    CollectedAppend(s, [arg], text);
    CollectedAppend(s, t, text);
    assert [arg][..0] == [];
  }

  /** The label `entity` is what argument `arg` yields on `text`. */
  predicate LabelOf(entity: EntityLabel, arg: Arg, text: string)
  {
    && !IsIntent(arg) && !Skipped(arg)
    && entity.entityName == arg.key.value
    && entity.endCharIndex == entity.startCharIndex + |arg.val.value|
    && FirstOccurrence(text, arg.val.value, entity.startCharIndex)
  }

  /** Every label comes from a non-intent argument with a recognised key, and locates its value in the text. */
  lemma {:induction false} CollectedSound(args: seq<Arg>, text: string)
    ensures |Collected(args, text)| <= |args|
    ensures forall l :: l in Collected(args, text) ==>
      exists a :: a in args && LabelOf(l, a, text)
    decreases |args|
  {
    if args != [] {
      var prefix := args[..|args| - 1];
      CollectedSound(prefix, text);
      forall l | l in Collected(args, text)
        ensures exists a :: a in args && LabelOf(l, a, text)
      {
        if l in Collected(prefix, text) {
          var a :| a in prefix && LabelOf(l, a, text);
          assert a in args;
        } else {
          assert LabelOf(l, args[|args| - 1], text);
        }
      }
    }
  }

  /** Every kept, non-intent argument contributes its label, wherever it stands: the converse of CollectedSound. */
  lemma CollectedComplete(s: seq<Arg>, arg: Arg, t: seq<Arg>, text: string)
    requires !IsIntent(arg) && GetEntity(arg, text).Ok? && GetEntity(arg, text).value.Some?
    ensures GetEntity(arg, text).value.value in Collected(s + [arg] + t, text)
  {
    CollectedAppend(s + [arg], t, text);
    CollectedAppend(s, [arg], text);
    assert [arg][..0] == [];
  }

  /** The labels of a turn are well-formed: a recognised kind, a span inside the text. */
  lemma LabelsWellFormed(acts: seq<Act>, text: string)
    requires ExtractTurn(acts, text).Ok?
    ensures forall l :: l in ExtractTurn(acts, text).value.1 ==>
      l.entityName in Labels && l.startCharIndex <= l.endCharIndex <= |text|
  {
    CollectedSound(Flatten(acts), text);
  }

  // ---------------------------------------------------------------------------
  // Conversion and the prefix partition (convert_to_luis)
  // ---------------------------------------------------------------------------

  /** The utterance built from the first turn of a conversation. */
  function ConvertConversation(conversation: Conversation): Result<Utterance, Failure>
  {
    if |conversation| == 0 then Err(NoTurns)
    else
      var turn := conversation[0];
      match ExtractTurn(turn.acts, turn.text)
      case Err(e) => Err(e)
      case Ok((name, labels)) => Ok(Utterance(turn.text, name, labels))
  }

  /** Only the first turn of each conversation is read. */
  lemma FirstTurnOnly(turn: Turn, later: seq<Turn>, other: seq<Turn>)
    ensures ConvertConversation([turn] + later) == ConvertConversation([turn] + other)
    ensures ConvertConversation([turn] + later).Ok? ==>
      ConvertConversation([turn] + later).value.text == turn.text
  {
  }

  function Min(a: int, b: int): int
  {
    if a <= b then a else b
  }

  function Max(a: int, b: int): int
  {
    if a <= b then b else a
  }

  /** The partition boundary `floor(N * trainSize)`. */
  function Boundary(n: nat, trainSize: real): int
  {
    (n as real * trainSize).Floor
  }

  /** The number of conversations that go to train: the boundary, clipped to 0..N. */
  function TrainCount(n: nat, trainSize: real): nat
  {
    Min(Max(Boundary(n, trainSize), 0), n)
  }

  /** convert_to_luis, in memory: converts the first turn of every conversation, in order,
      and puts the first `floor(N * trainSize)` utterances in train and the rest in test. */
  method ConvertToLuis(data: seq<Conversation>, trainSize: real)
    returns (r: Result<(seq<Utterance>, seq<Utterance>), Failure>)
    ensures r.Ok? <==> forall i :: 0 <= i < |data| ==> ConvertConversation(data[i]).Ok?
    ensures r.Err? ==> exists i :: 0 <= i < |data| && ConvertConversation(data[i]) == Err(r.error)
                                && forall j :: 0 <= j < i ==> ConvertConversation(data[j]).Ok?
    ensures r.Ok? ==> |r.value.0| + |r.value.1| == |data|
    ensures r.Ok? ==> forall i :: 0 <= i < |data| ==> ConvertConversation(data[i]) == Ok((r.value.0 + r.value.1)[i])
    ensures r.Ok? ==> |r.value.0| == TrainCount(|data|, trainSize)
  {
    var intentsTest: seq<Utterance> := [];
    var intentsTrain: seq<Utterance> := [];
    var stopTrain := Boundary(|data|, trainSize);
    ghost var k := stopTrain;
    var i := 0;
    while i < |data|
      invariant 0 <= i <= |data|
      invariant |intentsTrain| + |intentsTest| == i
      invariant forall j :: 0 <= j < i ==> ConvertConversation(data[j]) == Ok((intentsTrain + intentsTest)[j])
      invariant stopTrain == k - i
      invariant |intentsTrain| == Min(Max(k, 0), i)
      invariant stopTrain > 0 ==> intentsTest == []
    {
      var conversation := data[i];
      if |conversation| == 0 {
        return Err(NoTurns);
      }
      var turn := conversation[0];
      var extracted := GetIntents(turn, turn.text);
      if extracted.Err? {
        return Err(extracted.error);
      }
      var intent := Utterance(turn.text, extracted.value.0, extracted.value.1);
      assert ConvertConversation(conversation) == Ok(intent);
      ghost var converted := intentsTrain + intentsTest;
      if stopTrain <= 0 {
        intentsTest := intentsTest + [intent];
      } else {
        intentsTrain := intentsTrain + [intent];
      }
      assert intentsTrain + intentsTest == converted + [intent];
      stopTrain := stopTrain - 1;
      i := i + 1;
    }
    return Ok((intentsTrain, intentsTest));
  }

  /** A valid train fraction puts exactly floor(N * trainSize) conversations in train. */
  lemma TrainCountExact(n: nat, trainSize: real)
    requires 0.0 <= trainSize <= 1.0
    ensures TrainCount(n, trainSize) == (n as real * trainSize).Floor
    ensures trainSize == 0.0 ==> TrainCount(n, trainSize) == 0
    ensures trainSize == 1.0 ==> TrainCount(n, trainSize) == n
  {
    assert 0.0 <= n as real * trainSize <= n as real;
  }

  // ---------------------------------------------------------------------------
  // Size resolver (get_train_test_size)
  // ---------------------------------------------------------------------------

  /** get_train_test_size: defaults and complements, then the three checks in order. */
  function GetTrainTestSize(trainSize: Option<real>, testSize: Option<real>): (r: Result<(real, real), SizeError>)
    ensures trainSize.None? && testSize.None? ==> r == Ok((0.75, 0.25))
    ensures trainSize.Some? && testSize.None? ==>
      var t := trainSize.value;
      r == if t < 0.0 then Err(NoneCompared) else if t > 1.0 then Err(WrongTestSize) else Ok((t, 1.0 - t))
    ensures trainSize.None? && testSize.Some? ==>
      var s := testSize.value;
      r == if s < 0.0 || s > 1.0 then Err(WrongTestSize) else Ok((1.0 - s, s))
    ensures trainSize.Some? && testSize.Some? ==>
      var t, s := trainSize.value, testSize.value;
      r == if s < 0.0 || s > 1.0 then Err(WrongTestSize)
           else if t < 0.0 || t > 1.0 then Err(WrongTrainSize)
           else if t + s > 1.0 then Err(SumOverOne)
           else Ok((t, s))
    ensures r.Ok? ==>
      0.0 <= r.value.0 <= 1.0 && 0.0 <= r.value.1 <= 1.0 && r.value.0 + r.value.1 <= 1.0
  {
    var bothUnset := trainSize.None? && testSize.None?;
    var train0 := if bothUnset then Some(0.75) else trainSize;
    var test0 := if bothUnset then Some(0.25) else testSize;
    var test1 := if test0.None? && train0.value >= 0.0 then Some(1.0 - train0.value) else test0;
    var train1 := if train0.None? && test1.value >= 0.0 then Some(1.0 - test1.value) else train0;
    if test1.None? then Err(NoneCompared)
    else if test1.value > 1.0 || test1.value < 0.0 then Err(WrongTestSize)
    else if train1.value > 1.0 || train1.value < 0.0 then Err(WrongTrainSize)
    else if train1.value + test1.value > 1.0 then Err(SumOverOne)
    else Ok((train1.value, test1.value))
  }


}
