/** Blocks of Binance Chain as the monitor sees them, and the package events in them. */
module Events {
  import opened Machine
  import opened Decimal

  datatype Task = Task(channel: Int8, sequence: Uint64)

  datatype Attribute = Attribute(key: string, value: string)

  datatype Event = Event(kind: string, attributes: seq<Attribute>)

  datatype Block = Block(validatorsHash: Bytes, nextValidatorsHash: Bytes, events: seq<Event>)

  const SEPARATOR := "::"
  const PACKAGE_EVENT := "IBCPackage"
  const PACKAGE_INFO := "IBCPackageInfo"

  /** The task that asks for a header sync and carries no package. */
  const MARKER := Task(-1, 0)

  function SplitFrom(s: string, i: nat): seq<string>
    requires i <= |s|
    decreases |s| - i, |s|
  {
    if i + 2 > |s| then [s]
    else if s[i..i + 2] == SEPARATOR then [s[..i]] + SplitFrom(s[i + 2..], 0)
    else SplitFrom(s, i + 1)
  }

  /** strings.Split(s, "::"): cut at each separator, leftmost first. */
  function Split(s: string): seq<string> {
    SplitFrom(s, 0)
  }

  /** The package named by one attribute value, when it is meant for `dest`. */
  function ParseInfo(value: string, dest: Uint16): Option<Task> {
    var items := Split(value);
    if |items| != 3 then None
    else
      match (Atoi(items[0]), Atoi(items[1]), Atoi(items[2]))
      case (Some(d), Some(c), Some(q)) =>
        if ToUint16(d) == dest && 0 <= c <= 127 && 0 <= q then Some(Task(c, q)) else None
      case _ => None
  }

  function AttributeTask(kind: string, a: Attribute, dest: Uint16): Option<Task> {
    if kind == PACKAGE_EVENT && a.key == PACKAGE_INFO then ParseInfo(a.value, dest) else None
  }

  function OptionToSeq<T>(o: Option<T>): seq<T> {
    match o case None => [] case Some(x) => [x]
  }

  function AttributeTasks(kind: string, attributes: seq<Attribute>, dest: Uint16): seq<Task> {
    if attributes == [] then []
    else
      var n := |attributes| - 1;
      AttributeTasks(kind, attributes[..n], dest) + OptionToSeq(AttributeTask(kind, attributes[n], dest))
  }

  function EventTasks(events: seq<Event>, dest: Uint16): seq<Task> {
    if events == [] then []
    else
      var n := |events| - 1;
      EventTasks(events[..n], dest) + AttributeTasks(events[n].kind, events[n].attributes, dest)
  }

  /** Does this block ask for a header sync, given the hash carried so far (None is nil)? */
  predicate Changed(carried: Option<Bytes>, b: Block) {
    carried.Some? && (b.validatorsHash != carried.value || b.validatorsHash != b.nextValidatorsHash)
  }

  /** The hash carried on after a block was read. */
  function Carry(carried: Option<Bytes>, b: Block): Option<Bytes> {
    if carried.None? then None else if Changed(carried, b) then Some(b.validatorsHash) else carried
  }

  function TasksOf(carried: Option<Bytes>, b: Block, dest: Uint16): seq<Task> {
    (if Changed(carried, b) then [MARKER] else []) + EventTasks(b.events, dest)
  }

  /** The text a package event carries, `%d::%d::%d`. */
  function PrintInfo(dest: int, channel: int, sequence: int): string {
    Print(dest) + SEPARATOR + Print(channel) + SEPARATOR + Print(sequence)
  }

  lemma {:induction false} SplitAtSeparator(a: string, rest: string, i: nat)
    requires i <= |a| && ':' !in a
    ensures SplitFrom(a + SEPARATOR + rest, i) == [a] + Split(rest)
    decreases |a| - i
  {
    var s := a + SEPARATOR + rest;
    if i == |a| {
      assert s[i..i + 2] == SEPARATOR;
      assert s[..i] == a && s[i + 2..] == rest;
    } else {
      assert s[i..i + 2][0] == a[i] != ':';
      SplitAtSeparator(a, rest, i + 1);
    }
  }

  lemma {:induction false} SplitNothing(a: string, i: nat)
    requires i <= |a| && ':' !in a
    ensures SplitFrom(a, i) == [a]
    decreases |a| - i
  {
    if i + 2 > |a| {
    } else {
      assert a[i..i + 2][0] == a[i] != ':';
      SplitNothing(a, i + 1);
    }
  }

  /**
   Which texts parse, and to what: three integers with `::` between them, the first an int64 equal to `dest`
   modulo 2^16, the second 0..127, the third a non-negative int64. The last two are the task.
   */
  lemma ParsesExactly(a: string, b: string, c: string, dest: Uint16)
    requires ReadInt(a).Some? && ReadInt(b).Some? && ReadInt(c).Some?
    ensures var (d, channel, sequence) := (ReadInt(a).value, ReadInt(b).value, ReadInt(c).value);
            ParseInfo(a + SEPARATOR + b + SEPARATOR + c, dest) ==
            if -0x8000_0000_0000_0000 <= d < 0x8000_0000_0000_0000 && (d - dest) % 0x1_0000 == 0
               && 0 <= channel <= 127 && 0 <= sequence < 0x8000_0000_0000_0000
            then Some(Task(channel, sequence)) else None
  {
    ReadHasNoColon(a);
    ReadHasNoColon(b);
    ReadHasNoColon(c);
    var tail := b + SEPARATOR + c;
    assert a + SEPARATOR + b + SEPARATOR + c == a + SEPARATOR + tail;
    SplitAtSeparator(a, tail, 0);
    SplitAtSeparator(b, c, 0);
    SplitNothing(c, 0);
    hide ReadInt, SplitFrom;
    assert Split(a + SEPARATOR + b + SEPARATOR + c) == [a, b, c];
    Conversions(ReadInt(a).value);
  }

  /** Printing then parsing, for all integers: exactly the representable packages for `dest` come back. */
  lemma ParsePrinted(d: int, c: int, q: int, dest: Uint16)
    ensures ParseInfo(PrintInfo(d, c, q), dest) ==
            if -0x8000_0000_0000_0000 <= d < 0x8000_0000_0000_0000 && (d - dest) % 0x1_0000 == 0
               && 0 <= c <= 127 && 0 <= q < 0x8000_0000_0000_0000
            then Some(Task(c, q)) else None
  {
    ReadPrinted(d);
    ReadPrinted(c);
    ReadPrinted(q);
    hide ReadInt, Print, ParseInfo;
    ParsesExactly(Print(d), Print(c), Print(q), dest);
  }

  /** The items with the separator between them. */
  function Join(items: seq<string>): string
    requires items != []
  {
    if |items| == 1 then items[0] else items[0] + SEPARATOR + Join(items[1..])
  }

  lemma {:induction false} JoinSplit(s: string, i: nat)
    requires i <= |s|
    ensures SplitFrom(s, i) != [] && Join(SplitFrom(s, i)) == s
    decreases |s| - i, |s|
  {
    if i + 2 > |s| {
    } else if s[i..i + 2] == SEPARATOR {
      JoinSplit(s[i + 2..], 0);
      assert SplitFrom(s, i)[1..] == SplitFrom(s[i + 2..], 0);
      assert s == s[..i] + SEPARATOR + s[i + 2..];
    } else {
      JoinSplit(s, i + 1);
    }
  }

  lemma JoinThree(a: string, b: string, c: string)
    ensures Join([a, b, c]) == a + SEPARATOR + b + SEPARATOR + c
  {
    assert [a, b, c][1..] == [b, c] && [b, c][1..] == [c];
    assert Join([b, c]) == b + SEPARATOR + c;
    assert a + SEPARATOR + (b + SEPARATOR + c) == a + SEPARATOR + b + SEPARATOR + c;
  }

  /** Only texts of three integers with separators between them parse, and their task is made of those integers. */
  lemma ParsedIsTriple(value: string, dest: Uint16)
    requires ParseInfo(value, dest).Some?
    ensures exists a, b, c ::
              && value == a + SEPARATOR + b + SEPARATOR + c
              && ReadInt(a).Some? && ReadInt(b).Some? && ReadInt(c).Some?
              && ToUint16(ReadInt(a).value) == dest
              && ReadInt(b).value == ParseInfo(value, dest).value.channel
              && ReadInt(c).value == ParseInfo(value, dest).value.sequence
  {
    var items := Split(value);
    JoinSplit(value, 0);
    JoinThree(items[0], items[1], items[2]);
    hide SplitFrom, ReadInt, Join;
    assert items == [items[0], items[1], items[2]];
  }

  lemma {:induction false} AttributeTasksAreReal(kind: string, attributes: seq<Attribute>, dest: Uint16)
    ensures forall t :: t in AttributeTasks(kind, attributes, dest) ==>
      0 <= t.channel && t.sequence < 0x8000_0000_0000_0000
  {
    if attributes == [] {
    } else {
      AttributeTasksAreReal(kind, attributes[..|attributes| - 1], dest);
    }
  }

  lemma {:induction false} EventTasksAreReal(events: seq<Event>, dest: Uint16)
    ensures forall t :: t in EventTasks(events, dest) ==> 0 <= t.channel && t.sequence < 0x8000_0000_0000_0000
  {
    if events == [] {
    } else {
      EventTasksAreReal(events[..|events| - 1], dest);
      AttributeTasksAreReal(events[|events| - 1].kind, events[|events| - 1].attributes, dest);
    }
  }

  /** The marker stands at index 0 exactly when the validator set changed, and nowhere else. */
  lemma MarkerOnlyInFront(carried: Option<Bytes>, b: Block, dest: Uint16)
    ensures var tasks := TasksOf(carried, b, dest);
            && (Changed(carried, b) <==> tasks != [] && tasks[0].channel == -1)
            && (forall i :: 0 < i < |tasks| ==> 0 <= tasks[i].channel <= 127)
            && (Changed(carried, b) ==> tasks[0] == MARKER && tasks[1..] == EventTasks(b.events, dest))
            && (!Changed(carried, b) ==> tasks == EventTasks(b.events, dest))
  {
    EventTasksAreReal(b.events, dest);
  }

  /** Which attributes put a task into the list. */
  ghost predicate NamedBy(t: Task, kind: string, attributes: seq<Attribute>, dest: Uint16) {
    && kind == "IBCPackage"
    && exists a :: a in attributes && a.key == "IBCPackageInfo" && ParseInfo(a.value, dest) == Some(t)
  }

  lemma {:induction false} AttributeTasksExactly(kind: string, attributes: seq<Attribute>, dest: Uint16, t: Task)
    ensures t in AttributeTasks(kind, attributes, dest) <==> NamedBy(t, kind, attributes, dest)
  {
    if attributes == [] {
    } else {
      var n := |attributes| - 1;
      AttributeTasksExactly(kind, attributes[..n], dest, t);
      assert attributes == attributes[..n] + [attributes[n]];
    }
  }

  /** A task is listed exactly when some attribute of some event names it. */
  lemma {:induction false} EventTasksExactly(events: seq<Event>, dest: Uint16, t: Task)
    ensures t in EventTasks(events, dest) <==> exists e :: e in events && NamedBy(t, e.kind, e.attributes, dest)
  {
    if events == [] {
    } else {
      var n := |events| - 1;
      EventTasksExactly(events[..n], dest, t);
      AttributeTasksExactly(events[n].kind, events[n].attributes, dest, t);
      assert events == events[..n] + [events[n]];
    }
  }

  lemma NamedTaskIsFound(events: seq<Event>, e: Event, a: Attribute, dest: Uint16, t: Task)
    requires e in events && a in e.attributes && AttributeTask(e.kind, a, dest) == Some(t)
    ensures t in EventTasks(events, dest)
  {
    EventTasksExactly(events, dest, t);
    assert NamedBy(t, e.kind, e.attributes, dest);
  }

  /** A package printed into a block for `dest` is found by the monitor. */
  lemma PrintedPackageIsFound(events: seq<Event>, e: Event, dest: Uint16, c: nat, q: nat)
    requires e in events && e.kind == PACKAGE_EVENT
    requires Attribute(PACKAGE_INFO, PrintInfo(dest, c, q)) in e.attributes
    requires c <= 127 && q < 0x8000_0000_0000_0000
    ensures Task(c, q) in EventTasks(events, dest)
  {
    var text := PrintInfo(dest, c, q);
    assert ParseInfo(text, dest) == Some(Task(c, q)) by {
      ParsePrinted(dest, c, q, dest);
    }
    NamedTaskIsFound(events, e, Attribute(PACKAGE_INFO, text), dest, Task(c, q));
  }

  // The order of the tasks.

  lemma FrontOfJoin<T>(a: seq<T>, b: seq<T>)
    requires b != []
    ensures (a + b)[..|a + b| - 1] == a + b[..|b| - 1] && (a + b)[|a + b| - 1] == b[|b| - 1]
  {
  }

  /** The tasks of an event stand in the order of its attributes. */
  lemma {:induction false} AttributeTasksJoin(kind: string, a: seq<Attribute>, b: seq<Attribute>, dest: Uint16)
    ensures AttributeTasks(kind, a + b, dest) == AttributeTasks(kind, a, dest) + AttributeTasks(kind, b, dest)
  {
    hide AttributeTask;
    if b == [] {
      assert a + b == a;
    } else {
      var n := |b| - 1;
      AttributeTasksJoin(kind, a, b[..n], dest);
      FrontOfJoin(a, b);
    }
  }

  /** The tasks of a block stand in the order of its events. */
  lemma {:induction false} EventTasksJoin(a: seq<Event>, b: seq<Event>, dest: Uint16)
    ensures EventTasks(a + b, dest) == EventTasks(a, dest) + EventTasks(b, dest)
  {
    hide AttributeTasks;
    if b == [] {
      assert a + b == a;
    } else {
      var n := |b| - 1;
      EventTasksJoin(a, b[..n], dest);
      FrontOfJoin(a, b);
    }
  }

  function PrintedAttribute(dest: Uint16, t: Task): Attribute {
    Attribute("IBCPackageInfo", PrintInfo(dest, t.channel, t.sequence))
  }

  function PrintedAttributes(dest: Uint16, tasks: seq<Task>): seq<Attribute> {
    seq(|tasks|, i requires 0 <= i < |tasks| => PrintedAttribute(dest, tasks[i]))
  }

  lemma {:induction false} PrintedAttributesComeBack(dest: Uint16, tasks: seq<Task>)
    requires forall i :: 0 <= i < |tasks| ==> 0 <= tasks[i].channel && tasks[i].sequence < 0x8000_0000_0000_0000
    ensures AttributeTasks("IBCPackage", PrintedAttributes(dest, tasks), dest) == tasks
  {
    hide ParseInfo, PrintInfo;
    if tasks == [] {
    } else {
      var n := |tasks| - 1;
      PrintedAttributesComeBack(dest, tasks[..n]);
      assert PrintedAttributes(dest, tasks)[..n] == PrintedAttributes(dest, tasks[..n]);
      ParsePrinted(dest, tasks[n].channel, tasks[n].sequence, dest);
      assert tasks == tasks[..n] + [tasks[n]];
    }
  }

  /** Printing any list of packages into the attributes of one event and monitoring it gives back the list, in order. */
  lemma PrintedListComesBack(dest: Uint16, tasks: seq<Task>)
    requires forall i :: 0 <= i < |tasks| ==> 0 <= tasks[i].channel && tasks[i].sequence < 0x8000_0000_0000_0000
    ensures EventTasks([Event("IBCPackage", PrintedAttributes(dest, tasks))], dest) == tasks
  {
    PrintedAttributesComeBack(dest, tasks);
    hide AttributeTasks, PrintedAttributes;
    var events := [Event("IBCPackage", PrintedAttributes(dest, tasks))];
    assert events[..0] == [] && EventTasks(events[..0], dest) == [];
  }
}
