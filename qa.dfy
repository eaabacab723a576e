/**
 * The question-answering agent's text handling: the normalised intent label,
 * the window of recent conversation and its text, where the walker is, and
 * what the knowledge search is asked about.
 */
module Qa {
  import opened Wrappers
  import opened Strings
  import opened State

  /** `response.strip().upper()`: the model's label without surrounding whitespace, in capitals. */
  function ClassifyIntent(response: string): (tag: string)
    ensures |tag| <= |response|
    ensures forall i :: 0 <= i < |tag| ==> !('a' <= tag[i] <= 'z')
    ensures tag == [] || (!IsSpace(tag[0]) && !IsSpace(tag[|tag| - 1]))
  {
    var tag := Upper(Strip(response));
    NormalLabel(response, tag);
    tag
  }

  /** The label is no longer than the reply, has no lower-case letter and no whitespace at either end. */
  lemma NormalLabel(response: string, tag: string)
    requires tag == Upper(Strip(response))
    ensures |tag| <= |response|
    ensures forall i :: 0 <= i < |tag| ==> !('a' <= tag[i] <= 'z')
    ensures tag == [] || (!IsSpace(tag[0]) && !IsSpace(tag[|tag| - 1]))
  {
    var stripped := Strip(response);
    UpperKeepsEnds(stripped);
    UpperHasNoLower(stripped);
  }

  lemma UpperHasNoLower(s: string)
    ensures forall i :: 0 <= i < |Upper(s)| ==> !('a' <= Upper(s)[i] <= 'z')
  {
    forall i | 0 <= i < |s| ensures !('a' <= Upper(s)[i] <= 'z') {
      assert Upper(s)[i] == UpperChar(s[i]);
    }
  }

  /** Capitalising text that neither starts nor ends with whitespace keeps it so. */
  lemma UpperKeepsEnds(s: string)
    requires s == [] || (!IsSpace(s[0]) && !IsSpace(s[|s| - 1]))
    ensures Upper(s) == [] || (!IsSpace(Upper(s)[0]) && !IsSpace(Upper(s)[|s| - 1]))
  {
  }

  /** Capitalising text without lower-case letters leaves it unchanged. */
  lemma UpperFixed(s: string)
    requires forall i :: 0 <= i < |s| ==> !('a' <= s[i] <= 'z')
    ensures Upper(s) == s
  {
  }

  /** Text that neither starts nor ends with whitespace is its own strip. */
  lemma StripFixed(s: string)
    requires s == [] || (!IsSpace(s[0]) && !IsSpace(s[|s| - 1]))
    ensures Strip(s) == s
  {
    StripPadded([], s, []);
    assert [] + s + [] == s;
  }

  /** A label that is already normal stays as it is. */
  lemma ClassifyIdempotent(response: string)
    ensures ClassifyIntent(ClassifyIntent(response)) == ClassifyIntent(response)
  {
    var tag := ClassifyIntent(response);
    StripFixed(tag);
    UpperFixed(tag);
  }

  /** Whitespace around the label is ignored: a padded reply classifies as its capitalised word. */
  lemma ClassifyPadded(left: string, word: string, right: string)
    requires forall i :: 0 <= i < |left| ==> IsSpace(left[i])
    requires forall i :: 0 <= i < |right| ==> IsSpace(right[i])
    requires word == [] || (!IsSpace(word[0]) && !IsSpace(word[|word| - 1]))
    ensures ClassifyIntent(left + word + right) == Upper(word)
  {
    StripPadded(left, word, right);
  }

  /** A message of the conversation so far. */
  datatype HistoryMessage = HistoryMessage(role: string, content: string)

  const HistoryWindow: nat := 6

  /** `history[-6:] if history else []`: the last six messages, or all of them when there are fewer. */
  function RecentHistory(history: seq<HistoryMessage>): (recent: seq<HistoryMessage>)
    ensures |recent| == if |history| < HistoryWindow then |history| else HistoryWindow
    ensures recent == history[|history| - |recent|..]
  {
    if |history| <= HistoryWindow then history else history[|history| - HistoryWindow..]
  }

  /** A message as one line of the prompt, `role: content`. */
  function HistoryLine(m: HistoryMessage): (line: string)
    ensures |line| >= 2
  {
    m.role + ": " + m.content
  }

  function HistoryLines(messages: seq<HistoryMessage>): (lines: seq<string>)
    ensures |lines| == |messages| && forall i :: 0 <= i < |messages| ==> lines[i] == HistoryLine(messages[i])
  {
    seq(|messages|, i requires 0 <= i < |messages| => HistoryLine(messages[i]))
  }

  /** The conversation as the prompt shows it: the recent messages' lines, joined by line breaks. */
  function HistoryText(history: seq<HistoryMessage>): (text: string)
    ensures text == "" <==> history == []
  {
    var lines := HistoryLines(RecentHistory(history));
    JoinEmpty(lines, "\n");
    Join(lines, "\n")
  }

  /** A join of non-empty pieces is empty exactly when there are none. */
  lemma {:induction false} JoinEmpty(parts: seq<string>, sep: string)
    requires |sep| > 0
    requires forall k :: 0 <= k < |parts| ==> |parts[k]| > 0
    ensures Join(parts, sep) == "" <==> parts == []
  {
    if |parts| > 1 {
      assert |Join(parts, sep)| >= |parts[0]|;
    }
  }

  /**
   * When no role or content holds a line break, the text splits back into
   * exactly one line per recent message, in order.
   */
  lemma HistoryTextLines(history: seq<HistoryMessage>)
    requires history != []
    requires forall m :: m in history ==> '\n' !in m.role && '\n' !in m.content
    ensures Split(HistoryText(history), "\n") == HistoryLines(RecentHistory(history))
  {
    var recent := RecentHistory(history);
    var lines := HistoryLines(recent);
    forall k | 0 <= k < |lines| ensures '\n' !in lines[k] {
      assert recent[k] == history[|history| - |recent| + k];
      assert recent[k] in history;
      var m := recent[k];
      assert lines[k] == m.role + ": " + m.content;
    }
    JoinSplit(lines, '\n');
  }

  /** `poi_context`: `At: <name>` at a stop, `Walking` between stops. */
  function PoiContext(currentStop: Option<PoiStop>): (context: string)
    ensures currentStop.Some? ==> context == "At: " + currentStop.value.name
    ensures currentStop.None? ==> context == "Walking"
  {
    match currentStop
    case Some(stop) => "At: " + stop.name
    case None => "Walking"
  }

  /** What the knowledge search is asked about: the current stop's name, or else the question. */
  function KnowledgeQuery(question: string, currentStop: Option<PoiStop>): (query: string)
    ensures currentStop.Some? ==> query == currentStop.value.name
    ensures currentStop.None? ==> query == question
  {
    match currentStop
    case Some(stop) => stop.name
    case None => question
  }
}
