/**
 The prompt a heartbeat queues: a header, what the task says about itself, and its instructions, line by line.
 The lines about a task are only limited where the task store limits them, which it does not for its metadata.
 */
module HeartbeatPrompt {
  import opened Prelude
  import opened EventNames
  import H = Heartbeat

  /** How a moment and a number of seconds are written out, and the sentences that ask for the work. */
  datatype Show = Show(moment: real -> string, seconds: real -> string, taskRequest: string, fileRequest: string)

  function ShowInt(n: int): string {
    if n < 0 then "-" + Decimal(-n) else Decimal(n)
  }

  function Join(lines: seq<string>): string {
    if lines == [] then ""
    else if |lines| == 1 then lines[0]
    else lines[0] + "\n" + Join(lines[1..])
  }

  predicate EndsWith(s: string, suffix: string) {
    |suffix| <= |s| && s[|s| - |suffix|..] == suffix
  }

  /** A line about something the task does not say. */
  predicate IsBlank(line: string) {
    EndsWith(line, ": ") || EndsWith(line, ": None")
  }

  function NonBlank(lines: seq<string>): (r: seq<string>)
    ensures forall line :: line in r <==> line in lines && !IsBlank(line)
  {
    if lines == [] then []
    else
      assert forall line :: line in lines <==> line == lines[0] || line in lines[1..];
      (if IsBlank(lines[0]) then [] else [lines[0]]) + NonBlank(lines[1..])
  }

  function MetadataLines(t: H.Task, show: Show): seq<string> {
    ["任务优先级: " + t.meta.priority,
     "任务配额: " + t.meta.quota,
     "任务仓库: " + t.meta.repoPath,
     "任务远端: " + t.meta.remoteUrl,
     "任务目标: " + t.meta.target,
     "任务截止时间: " + t.meta.deadlineUtc,
     "任务最小触发间隔秒: " + if t.minInterval.None? then "None" else show.seconds(t.minInterval.value)]
  }

  function TaskLines(t: H.Task, show: Show, now: real): seq<string> {
    ["任务来源: heartbeat queue",
     "任务ID: " + t.id,
     "任务标题: " + if t.title == "" then "(untitled)" else t.title,
     "任务权重: " + ShowInt(t.weight),
     "任务有效权重: " + ShowInt(H.EffectiveWeight(t, now))]
    + NonBlank(MetadataLines(t, show))
    + ["", show.taskRequest, ""]
  }

  function HeaderLines(show: Show, now: real): seq<string> {
    ["[OmniDoer heartbeat]", "触发时间: " + show.moment(now)]
  }

  function MiddleLines(file: string, now: real, task: Option<H.Task>, show: Show): seq<string> {
    if task.Some? then TaskLines(task.value, show, now) else ["任务文件: " + file, "", show.fileRequest, ""]
  }

  function Prompt(file: string, instructions: string, now: real, task: Option<H.Task>, show: Show): string {
    Join(HeaderLines(show, now) + MiddleLines(file, now, task, show) + [instructions])
  }

  // ---------------------------------------------------------------- its length

  lemma {:induction false} JoinContains(lines: seq<string>, i: nat)
    requires i < |lines|
    ensures |Join(lines)| >= |lines[i]|
  {
    if |lines| > 1 && i > 0 {
      JoinContains(lines[1..], i - 1);
    }
  }

  lemma {:induction false} JoinEnds(lines: seq<string>)
    requires lines != [] && lines[|lines| - 1] != ""
    ensures Join(lines) != "" && Join(lines)[|Join(lines)| - 1] == lines[|lines| - 1][|lines[|lines| - 1]| - 1]
  {
    if |lines| > 1 {
      JoinEnds(lines[1..]);
    }
  }

  lemma JoinBegins(lines: seq<string>)
    requires lines != [] && lines[0] != ""
    ensures Join(lines) != "" && Join(lines)[0] == lines[0][0]
  {}

  lemma HeaderBegins(show: Show, now: real)
    ensures var first := HeaderLines(show, now)[0]; first != "" && !IsSpace(first[0])
  {}

  lemma JoinUnstripped(header: seq<string>, middle: seq<string>, last: string)
    requires header != [] && header[0] != "" && !IsSpace(header[0][0]) && last != "" && !IsSpace(last[|last| - 1])
    ensures var text := Join(header + middle + [last]); Strip(text) == text && text != ""
  {
    var lines := header + middle + [last];
    assert lines[0] == header[0] && lines[|lines| - 1] == last;
    JoinBegins(lines);
    JoinEnds(lines);
    StripFixed(Join(lines));
  }

  /** With instructions that do not end in white space, nothing is stripped from the prompt. */
  lemma PromptUnstripped(file: string, instructions: string, now: real, task: Option<H.Task>, show: Show)
    requires instructions != "" && !IsSpace(instructions[|instructions| - 1])
    ensures var text := Prompt(file, instructions, now, task, show);
            Strip(text) == text && text != ""
  {
    HeaderBegins(show, now);
    JoinUnstripped(HeaderLines(show, now), MiddleLines(file, now, task, show), instructions);
  }

  /** The prompt is at least as long as any metadata line it shows. */
  lemma PromptShows(file: string, now: real, t: H.Task, show: Show, k: nat)
    requires k < |MetadataLines(t, show)| && !IsBlank(MetadataLines(t, show)[k])
    ensures |Prompt(file, t.text, now, Some(t), show)| >= |MetadataLines(t, show)[k]|
  {
    var line := MetadataLines(t, show)[k];
    assert line in NonBlank(MetadataLines(t, show));
    assert line in TaskLines(t, show, now);
    var lines := HeaderLines(show, now) + TaskLines(t, show, now) + [t.text];
    assert line in lines;
    var i :| 0 <= i < |lines| && lines[i] == line;
    JoinContains(lines, i);
  }

  /** A task whose target is too long for a chat message has a prompt that is too long, whatever else it says. */
  lemma LongTarget(file: string, now: real, t: H.Task, show: Show, limit: nat)
    requires t.text != "" && !IsSpace(t.text[|t.text| - 1])
    requires |t.meta.target| > limit && !IsBlank("任务目标: " + t.meta.target)
    ensures |Strip(Prompt(file, t.text, now, Some(t), show))| > limit
  {
    PromptUnstripped(file, t.text, now, Some(t), show);
    assert MetadataLines(t, show)[4] == "任务目标: " + t.meta.target;
    PromptShows(file, now, t, show, 4);
  }

  lemma {:induction false} JoinBound(lines: seq<string>, b: nat)
    requires forall k :: 0 <= k < |lines| ==> |lines[k]| <= b
    ensures |Join(lines)| <= |lines| * (b + 1)
  {
    if |lines| > 1 {
      JoinBound(lines[1..], b);
    }
  }

  lemma BlankField(field: string, value: string)
    requires |field| >= 2 && field[|field| - 2] == ':' && field[|field| - 1] == ' ' && (value == "" || value == "None")
    ensures IsBlank(field + value)
  {
    assert (field + value)[|field| - 2..] == ": " + value;
  }

  lemma {:induction false} AllBlank(lines: seq<string>)
    requires forall line :: line in lines ==> IsBlank(line)
    ensures NonBlank(lines) == []
  {
    if lines != [] {
      AllBlank(lines[1..]);
    }
  }

  lemma NoMetadata(t: H.Task, show: Show)
    requires t.meta == H.Meta("", "", "", "", "", "") && t.minInterval.None?
    ensures NonBlank(MetadataLines(t, show)) == []
  {
    forall line | line in MetadataLines(t, show) ensures IsBlank(line) {
      BlankField("任务优先级: ", t.meta.priority);
      BlankField("任务配额: ", t.meta.quota);
      BlankField("任务仓库: ", t.meta.repoPath);
      BlankField("任务远端: ", t.meta.remoteUrl);
      BlankField("任务目标: ", t.meta.target);
      BlankField("任务截止时间: ", t.meta.deadlineUtc);
      BlankField("任务最小触发间隔秒: ", "None");
    }
    AllBlank(MetadataLines(t, show));
  }

  /** What a task without metadata adds is bounded by its own parts. */
  predicate PartsWithin(t: H.Task, instructions: string, now: real, show: Show, b: nat) {
    && |t.id| <= b && |t.title| <= b && |ShowInt(t.weight)| <= b && |ShowInt(H.EffectiveWeight(t, now))| <= b
    && |instructions| <= b && |show.moment(now)| <= b && |show.taskRequest| <= b
  }

  lemma PlainPromptBound(file: string, instructions: string, now: real, t: H.Task, show: Show, b: nat)
    requires t.meta == H.Meta("", "", "", "", "", "") && t.minInterval.None? && PartsWithin(t, instructions, now, show, b)
    ensures |Prompt(file, instructions, now, Some(t), show)| <= 11 * (b + 31)
  {
    NoMetadata(t, show);
    var lines := HeaderLines(show, now) + TaskLines(t, show, now) + [instructions];
    assert |lines| == 11;
    JoinBound(lines, b + 30);
  }

  // ---------------------------------------------------------------- what it says

  /** The line stands in the text as a line of its own. */
  ghost predicate IsLineOf(line: string, text: string) {
    exists a, b {:trigger a + line + b} ::
      text == a + line + b && (a == "" || a[|a| - 1] == '\n') && (b == "" || b[0] == '\n')
  }

  lemma {:induction false} JoinConcat(a: seq<string>, b: seq<string>)
    requires a != [] && b != []
    ensures Join(a + b) == Join(a) + "\n" + Join(b)
  {
    if |a| == 1 {
      assert (a + b)[1..] == b && (a + b)[0] == a[0];
    } else {
      JoinConcat(a[1..], b);
      assert (a + b)[1..] == a[1..] + b && (a + b)[0] == a[0];
      assert a[0] + "\n" + (Join(a[1..]) + "\n" + Join(b)) == (a[0] + "\n" + Join(a[1..])) + "\n" + Join(b);
    }
  }

  lemma JoinOne(line: string)
    ensures Join([line]) == line
  {}

  lemma LineBetween(a: string, line: string, b: string)
    requires (a == "" || a[|a| - 1] == '\n') && (b == "" || b[0] == '\n')
    ensures IsLineOf(line, a + line + b)
  {}

  lemma JoinLineFirst(line: string, rest: seq<string>)
    ensures IsLineOf(line, Join([line] + rest))
  {
    JoinOne(line);
    if rest == [] {
      assert [line] + rest == [line];
      LineBetween("", line, "");
      assert "" + line + "" == line;
    } else {
      JoinConcat([line], rest);
      LineBetween("", line, "\n" + Join(rest));
      assert "" + line + ("\n" + Join(rest)) == line + "\n" + Join(rest);
    }
  }

  lemma LineAfter(front: string, line: string, text: string)
    requires IsLineOf(line, text)
    ensures IsLineOf(line, front + "\n" + text)
  {
    var a, b :| text == a + line + b && (a == "" || a[|a| - 1] == '\n') && (b == "" || b[0] == '\n');
    var longer := front + "\n" + a;
    assert longer[|longer| - 1] == '\n';
    LineBetween(longer, line, b);
    assert longer + line + b == front + "\n" + text;
  }

  /** Every line joined is a line of the text. */
  lemma JoinLine(lines: seq<string>, line: string)
    requires line in lines
    ensures IsLineOf(line, Join(lines))
  {
    var i :| 0 <= i < |lines| && lines[i] == line;
    var front, back := lines[..i], lines[i..];
    assert back == [line] + lines[i + 1..];
    JoinLineFirst(line, lines[i + 1..]);
    if i == 0 {
      assert back == lines;
    } else {
      JoinConcat(front, back);
      assert lines == front + back;
      LineAfter(Join(front), line, Join(back));
    }
  }

  /** An entry is shown if it says anything. */
  ghost predicate ShownIfAny(name: string, value: string, text: string) {
    value != "" && value != "None" && !EndsWith(value, ": ") && !EndsWith(value, ": None") ==> IsLineOf(name + value, text)
  }

  lemma BlankExactly(name: string, value: string)
    requires |name| >= 2 && name[|name| - 2] == ':' && name[|name| - 1] == ' '
    ensures IsBlank(name + value) <==> value == "" || value == "None" || EndsWith(value, ": ") || EndsWith(value, ": None")
  {
    var line := name + value;
    if value == "" || value == "None" {
      BlankField(name, value);
    }
    if |value| >= 2 {
      assert line[|line| - 2..] == value[|value| - 2..];
    } else if |value| == 1 {
      assert line[|line| - 2..][0] == ' ';
    }
    NoneAtEnd(name, value);
  }

  lemma NoneAtEnd(name: string, value: string)
    requires |name| >= 2 && name[|name| - 2] == ':' && name[|name| - 1] == ' '
    ensures EndsWith(name + value, ": None") <==> value == "None" || EndsWith(value, ": None")
  {
    var line := name + value;
    assert value == "None" ==> line[|line| - 6..] == ": None";
    if |value| >= 6 {
      assert line[|line| - 6..] == value[|value| - 6..];
    } else if EndsWith(line, ": None") {
      var tail := line[|line| - 6..];
      assert forall i :: 0 <= i < |value| ==> value[i] == tail[6 - |value| + i];
      assert |value| < 6 ==> tail[5 - |value|] == ' ';
      assert |value| == 4;
      assert value == tail[2..];
    }
  }

  lemma ShownWhenLine(name: string, value: string, lines: seq<string>, shown: seq<string>, text: string)
    requires |name| >= 2 && name[|name| - 2] == ':' && name[|name| - 1] == ' ' && name + value in lines
    requires forall line :: line in NonBlank(lines) ==> line in shown
    requires text == Join(shown)
    ensures ShownIfAny(name, value, text)
  {
    BlankExactly(name, value);
    if !IsBlank(name + value) {
      JoinLine(shown, name + value);
    }
  }

  /** The lines of a task's prompt. */
  function PromptLines(instructions: string, now: real, t: H.Task, show: Show): seq<string> {
    HeaderLines(show, now) + TaskLines(t, show, now) + [instructions]
  }

  lemma MetadataShown(instructions: string, now: real, t: H.Task, show: Show)
    ensures var shown := PromptLines(instructions, now, t, show);
            forall line :: line in NonBlank(MetadataLines(t, show)) ==> line in shown
  {
    var shown := PromptLines(instructions, now, t, show);
    forall line | line in NonBlank(MetadataLines(t, show)) ensures line in shown {
      assert line in TaskLines(t, show, now);
    }
  }

  lemma EntriesShown(meta: H.Meta, lines: seq<string>, shown: seq<string>, text: string)
    requires "任务优先级: " + meta.priority in lines && "任务配额: " + meta.quota in lines
    requires "任务仓库: " + meta.repoPath in lines && "任务远端: " + meta.remoteUrl in lines
    requires "任务目标: " + meta.target in lines && "任务截止时间: " + meta.deadlineUtc in lines
    requires (forall line :: line in NonBlank(lines) ==> line in shown) && text == Join(shown)
    ensures ShownIfAny("任务优先级: ", meta.priority, text) && ShownIfAny("任务配额: ", meta.quota, text)
    ensures ShownIfAny("任务仓库: ", meta.repoPath, text) && ShownIfAny("任务远端: ", meta.remoteUrl, text)
    ensures ShownIfAny("任务目标: ", meta.target, text) && ShownIfAny("任务截止时间: ", meta.deadlineUtc, text)
  {
    ShownWhenLine("任务优先级: ", meta.priority, lines, shown, text);
    ShownWhenLine("任务配额: ", meta.quota, lines, shown, text);
    ShownWhenLine("任务仓库: ", meta.repoPath, lines, shown, text);
    ShownWhenLine("任务远端: ", meta.remoteUrl, lines, shown, text);
    ShownWhenLine("任务目标: ", meta.target, lines, shown, text);
    ShownWhenLine("任务截止时间: ", meta.deadlineUtc, lines, shown, text);
  }

  /** The prompt shows every entry of the task that says something, as a line of its own. */
  lemma PromptShowsEntries(file: string, instructions: string, now: real, t: H.Task, show: Show)
    ensures var text := Prompt(file, instructions, now, Some(t), show);
            && ShownIfAny("任务优先级: ", t.meta.priority, text) && ShownIfAny("任务配额: ", t.meta.quota, text)
            && ShownIfAny("任务仓库: ", t.meta.repoPath, text) && ShownIfAny("任务远端: ", t.meta.remoteUrl, text)
            && ShownIfAny("任务目标: ", t.meta.target, text) && ShownIfAny("任务截止时间: ", t.meta.deadlineUtc, text)
            && (t.minInterval.Some? ==> ShownIfAny("任务最小触发间隔秒: ", show.seconds(t.minInterval.value), text))
  {
    var lines, shown := MetadataLines(t, show), PromptLines(instructions, now, t, show);
    var text := Prompt(file, instructions, now, Some(t), show);
    MetadataShown(instructions, now, t, show);
    EntryLines(t, show);
    EntriesShown(t.meta, lines, shown, text);
    if t.minInterval.Some? {
      ShownWhenLine("任务最小触发间隔秒: ", show.seconds(t.minInterval.value), lines, shown, text);
    }
  }

  lemma EntryLines(t: H.Task, show: Show)
    ensures var lines := MetadataLines(t, show);
            && "任务优先级: " + t.meta.priority in lines && "任务配额: " + t.meta.quota in lines
            && "任务仓库: " + t.meta.repoPath in lines && "任务远端: " + t.meta.remoteUrl in lines
            && "任务目标: " + t.meta.target in lines && "任务截止时间: " + t.meta.deadlineUtc in lines
            && (t.minInterval.Some? ==> "任务最小触发间隔秒: " + show.seconds(t.minInterval.value) in lines)
  {
    var lines := MetadataLines(t, show);
    assert lines[0] in lines && lines[1] in lines && lines[2] in lines && lines[3] in lines;
    assert lines[4] in lines && lines[5] in lines && lines[6] in lines;
  }

  lemma TaskSaid(instructions: string, now: real, t: H.Task, show: Show, line: string)
    requires line in HeaderLines(show, now) || line in TaskLines(t, show, now)
    ensures IsLineOf(line, Join(PromptLines(instructions, now, t, show)))
  {
    JoinLine(PromptLines(instructions, now, t, show), line);
  }

  lemma TaskLinesHave(now: real, t: H.Task, show: Show)
    ensures var lines := TaskLines(t, show, now);
            && "任务ID: " + t.id in lines
            && "任务标题: " + (if t.title == "" then "(untitled)" else t.title) in lines
            && "任务权重: " + ShowInt(t.weight) in lines
            && "任务有效权重: " + ShowInt(H.EffectiveWeight(t, now)) in lines && show.taskRequest in lines
  {
    var lines, n := TaskLines(t, show, now), |TaskLines(t, show, now)|;
    assert lines[1] in lines && lines[2] in lines && lines[3] in lines && lines[4] in lines && lines[n - 2] in lines;
  }

  /** The prompt of a task names it, its title and its weights, asks for the work, and ends with the instructions. */
  lemma PromptSays(file: string, instructions: string, now: real, t: H.Task, show: Show)
    ensures var text := Prompt(file, instructions, now, Some(t), show);
            && IsLineOf("触发时间: " + show.moment(now), text) && IsLineOf("任务ID: " + t.id, text)
            && IsLineOf("任务标题: " + (if t.title == "" then "(untitled)" else t.title), text)
            && IsLineOf("任务权重: " + ShowInt(t.weight), text)
            && IsLineOf("任务有效权重: " + ShowInt(H.EffectiveWeight(t, now)), text)
            && IsLineOf(show.taskRequest, text) && EndsWith(text, "\n" + instructions)
  {
    TaskLinesHave(now, t, show);
    assert HeaderLines(show, now)[1] in HeaderLines(show, now);
    TaskSaid(instructions, now, t, show, "触发时间: " + show.moment(now));
    TaskSaid(instructions, now, t, show, "任务ID: " + t.id);
    TaskSaid(instructions, now, t, show, "任务标题: " + (if t.title == "" then "(untitled)" else t.title));
    TaskSaid(instructions, now, t, show, "任务权重: " + ShowInt(t.weight));
    TaskSaid(instructions, now, t, show, "任务有效权重: " + ShowInt(H.EffectiveWeight(t, now)));
    TaskSaid(instructions, now, t, show, show.taskRequest);
    JoinEndsWith(HeaderLines(show, now) + TaskLines(t, show, now), instructions);
  }

  lemma JoinEndsWith(lines: seq<string>, last: string)
    requires lines != []
    ensures EndsWith(Join(lines + [last]), "\n" + last)
  {
    JoinConcat(lines, [last]);
    JoinOne(last);
    var text := Join(lines) + "\n" + last;
    assert text[|Join(lines)|..] == "\n" + last;
  }

  /** The prompt without a task names the file, asks for the work, and ends with what the file says. */
  lemma FilePromptSays(file: string, instructions: string, now: real, show: Show)
    ensures var text := Prompt(file, instructions, now, None, show);
            && IsLineOf("触发时间: " + show.moment(now), text) && IsLineOf("任务文件: " + file, text)
            && IsLineOf(show.fileRequest, text) && EndsWith(text, "\n" + instructions)
  {
    var front := HeaderLines(show, now) + MiddleLines(file, now, None, show);
    var lines := front + [instructions];
    assert lines[1] in lines && lines[2] in lines && lines[4] in lines;
    JoinLine(lines, "触发时间: " + show.moment(now));
    JoinLine(lines, "任务文件: " + file);
    JoinLine(lines, show.fileRequest);
    JoinEndsWith(front, instructions);
  }
}
