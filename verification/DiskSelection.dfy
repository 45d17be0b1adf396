/** Choice of the installation device among the disks of a machine. */
module DiskSelection {
  import opened Wrappers

  type uint64 = n: nat | n < 0x1_0000_0000_0000_0000

  /** A disk as the hardware library lists it. */
  datatype Disk = Disk(name: string, sizeBytes: uint64)

  datatype Key = Name | Size | OtherKey

  datatype Operator = In | NotIn | Lt | Gt | OtherOperator

  datatype Requirement = Requirement(key: Key, operator: Operator, values: seq<string>)

  /** The answer of a requirement on a disk; an evaluation error, or a crash on a missing value, ends the evaluation. */
  datatype Answer = Yes | No | Failed | Crashed

  /** The quantity parser: a text is malformed or stands for a number, possibly a fraction. */
  type Parser = string -> Option<real>

  /** A size of 2^63 bytes or more turns negative when it is read as a signed number. */
  function SignedSize(disk: Disk): int {
    if disk.sizeBytes < 0x8000_0000_0000_0000 then disk.sizeBytes else disk.sizeBytes - 0x1_0000_0000_0000_0000
  }

  function Path(name: string): string {
    "/dev/" + name
  }

  // ---- One requirement ----

  /** A requirement that compares sizes reads its first value. */
  predicate Sized(req: Requirement) {
    (req.operator.Lt? || req.operator.Gt?) && req.key.Size?
  }

  function Not(a: Answer): Answer {
    match a
    case Yes => No
    case No => Yes
    case other => other
  }

  function MatchesIn(disk: Disk, req: Requirement): Answer {
    if !req.key.Name? then Failed
    else if disk.name in req.values || Path(disk.name) in req.values then Yes else No
  }

  /** One comparison of sizes; `sign` tells the side of the limit the disk has to be on. */
  function MatchesSize(disk: Disk, req: Requirement, sign: real, parse: Parser): Answer
  {
    if !req.key.Size? then Failed
    else if req.values == [] then Crashed
    else
      var limit := parse(req.values[0]);
      if limit.None? then Failed else if sign * (SignedSize(disk) as real - limit.value) > 0.0 then Yes else No
  }

  function Matches(disk: Disk, req: Requirement, parse: Parser): Answer {
    match req.operator
    case In => MatchesIn(disk, req)
    case NotIn => Not(MatchesIn(disk, req))
    case Lt => MatchesSize(disk, req, -1.0, parse)
    case Gt => MatchesSize(disk, req, 1.0, parse)
    case OtherOperator => Failed
  }

  /** The loop over the accepted names. */
  method FindName(disk: Disk, req: Requirement) returns (answer: Answer)
    ensures answer == MatchesIn(disk, req)
  {
    if !req.key.Name? {
      return Failed;
    }
    for i := 0 to |req.values|
      invariant disk.name !in req.values[..i] && Path(disk.name) !in req.values[..i]
    {
      if req.values[i] == disk.name || req.values[i] == Path(disk.name) {
        return Yes;
      }
    }
    return No;
  }

  predicate Large(disk: Disk) {
    disk.sizeBytes >= 0x8000_0000_0000_0000
  }

  /**
   * A size comparison tells the true order of sizes exactly when the disk is not so large that its size
   * turns negative, or when both sizes lie on the same side of the limit.
   */
  lemma SizeOrderIff(disk: Disk, req: Requirement, parse: Parser)
    requires Sized(req) && req.values != [] && parse(req.values[0]).Some?
    ensures
      var limit, size, yes := parse(req.values[0]).value, disk.sizeBytes as real, Matches(disk, req, parse).Yes?;
      && (req.operator.Lt? ==>
            ((yes <==> size < limit) <==> !Large(disk) || size < limit || SignedSize(disk) as real >= limit))
      && (req.operator.Gt? ==>
            ((yes <==> size > limit) <==> !Large(disk) || size <= limit || SignedSize(disk) as real > limit))
  {
  }

  /** A disk of 2^63 bytes passes for one smaller than a byte. */
  lemma LargeDiskIsSmall(parse: Parser)
    requires parse("1") == Some(1.0)
    ensures
      var disk, req := Disk("sda", 0x8000_0000_0000_0000), Requirement(Size, Lt, ["1"]);
      Matches(disk, req, parse).Yes?
  {
  }

  /** A name requirement accepts a disk when a value is its name or its path; `NotIn` is the opposite. */
  lemma NameDecides(disk: Disk, values: seq<string>, parse: Parser)
    ensures
      var named := exists v <- values :: v == disk.name || v == "/dev/" + disk.name;
      && Matches(disk, Requirement(Name, In, values), parse) == (if named then Yes else No)
      && Matches(disk, Requirement(Name, NotIn, values), parse) == (if named then No else Yes)
  {
  }

  /** A size requirement compares the size as a signed 64-bit number with its first value, strictly. */
  lemma SizeDecides(disk: Disk, values: seq<string>, parse: Parser)
    requires values != [] && parse(values[0]).Some?
    ensures
      var size := if disk.sizeBytes < 0x8000_0000_0000_0000 then disk.sizeBytes
                  else disk.sizeBytes - 0x1_0000_0000_0000_0000;
      var limit := parse(values[0]).value;
      && Matches(disk, Requirement(Size, Lt, values), parse) == (if size as real < limit then Yes else No)
      && Matches(disk, Requirement(Size, Gt, values), parse) == (if size as real > limit then Yes else No)
  {
  }

  /** A requirement fails exactly when operator and key do not fit or the limit is malformed; it crashes without one. */
  lemma FailureDecides(disk: Disk, req: Requirement, parse: Parser)
    ensures
      Matches(disk, req, parse).Failed? <==>
        || req.operator.OtherOperator?
        || ((req.operator.In? || req.operator.NotIn?) && !req.key.Name?)
        || ((req.operator.Lt? || req.operator.Gt?)
            && (!req.key.Size? || (req.values != [] && parse(req.values[0]).None?)))
    ensures
      Matches(disk, req, parse).Crashed? <==>
        (req.operator.Lt? || req.operator.Gt?) && req.key.Size? && req.values == []
  {
  }

  // ---- A selector ----

  predicate Meets(disk: Disk, selector: seq<Requirement>, parse: Parser) {
    forall req <- selector :: Matches(disk, req, parse).Yes?
  }

  /** Requirement k of the selector is reached on the disk, and its answer ends the evaluation. */
  predicate StopsAt(disk: Disk, selector: seq<Requirement>, k: nat, parse: Parser, answer: Answer) {
    && k < |selector| && (answer.Failed? || answer.Crashed?)
    && (forall j :: 0 <= j < k ==> Matches(disk, selector[j], parse).Yes?)
    && Matches(disk, selector[k], parse) == answer
  }

  ghost predicate Stops(disk: Disk, selector: seq<Requirement>, parse: Parser, answer: Answer) {
    exists k: nat :: StopsAt(disk, selector, k, parse, answer)
  }

  /** The first disk on which the evaluation ends is `disks[i]`, and it ends with this answer. */
  ghost predicate EndsAt(disks: seq<Disk>, i: nat, selector: seq<Requirement>, parse: Parser, answer: Answer) {
    && i < |disks| && Stops(disks[i], selector, parse, answer)
    && forall j: nat, other :: j < i ==> !Stops(disks[j], selector, parse, other)
  }

  ghost predicate Ends(disks: seq<Disk>, selector: seq<Requirement>, parse: Parser, answer: Answer) {
    exists i: nat :: EndsAt(disks, i, selector, parse, answer)
  }

  /** The evaluation of a list of disks ends in at most one way. */
  lemma OneEnd(disks: seq<Disk>, i: nat, j: nat, selector: seq<Requirement>, parse: Parser, a: Answer, b: Answer)
    requires EndsAt(disks, i, selector, parse, a) && EndsAt(disks, j, selector, parse, b)
    ensures i == j && a == b
  {
    assert i == j;
    var k: nat :| StopsAt(disks[i], selector, k, parse, a);
    var l: nat :| StopsAt(disks[i], selector, l, parse, b);
    assert k == l;
  }

  lemma {:induction false} EndsSomewhere(disks: seq<Disk>, i: nat, selector: seq<Requirement>, parse: Parser,
                                         answer: Answer)
    requires i < |disks| && Stops(disks[i], selector, parse, answer)
    requires forall disk, other :: Stops(disk, selector, parse, other) ==> other == answer
    ensures Ends(disks, selector, parse, answer)
    decreases i
  {
    if j: nat :| j < i && Stops(disks[j], selector, parse, answer) {
      EndsSomewhere(disks, j, selector, parse, answer);
    } else {
      assert EndsAt(disks, i, selector, parse, answer);
    }
  }

  /** With a value on every size requirement nothing crashes, and some failing requirement reached is an error. */
  lemma ValuesPreventCrash(disks: seq<Disk>, selector: seq<Requirement>, parse: Parser)
    requires forall req <- selector :: Sized(req) ==> req.values != []
    ensures !Ends(disks, selector, parse, Crashed)
    ensures Ends(disks, selector, parse, Failed) <==>
              exists i :: 0 <= i < |disks| && Stops(disks[i], selector, parse, Failed)
  {
    forall disk, other | Stops(disk, selector, parse, other) ensures other == Failed {
      var k: nat :| StopsAt(disk, selector, k, parse, other);
      assert selector[k] in selector;
    }
    if i :| 0 <= i < |disks| && Stops(disks[i], selector, parse, Failed) {
      EndsSomewhere(disks, i, selector, parse, Failed);
    }
  }

  /** A name is left when every disk of that name, and there is one, meets the selector. */
  predicate Selected(name: string, disks: seq<Disk>, selector: seq<Requirement>, parse: Parser) {
    && (exists disk <- disks :: disk.name == name)
    && forall disk <- disks :: disk.name == name ==> Meets(disk, selector, parse)
  }

  predicate DistinctNames(disks: seq<Disk>) {
    forall i, j :: 0 <= i < j < |disks| ==> disks[i].name != disks[j].name
  }

  datatype Choice = Device(path: string) | NoDevice | EvaluationError | Crash

  /** The inner loop: it stops at the first requirement that does not hold or ends the evaluation. */
  method EvaluateSelector(disk: Disk, selector: seq<Requirement>, parse: Parser) returns (answer: Answer)
    ensures answer.Yes? <==> Meets(disk, selector, parse)
    ensures answer.Failed? || answer.Crashed? ==> Stops(disk, selector, parse, answer)
    ensures answer.Yes? || answer.No? ==> forall other :: !Stops(disk, selector, parse, other)
  {
    for k := 0 to |selector|
      invariant forall j :: 0 <= j < k ==> Matches(disk, selector[j], parse).Yes?
    {
      var m := Matches(disk, selector[k], parse);
      if !m.Yes? {
        assert selector[k] in selector;
        assert m.No? || StopsAt(disk, selector, k, parse, m);
        return m;
      }
    }
    return Yes;
  }

  /** What the choice should mean: exactly the filter. */
  predicate Filtered(choice: Choice, disks: seq<Disk>, selector: seq<Requirement>, parse: Parser) {
    match choice
    case Device(path) => exists disk <- disks :: path == Path(disk.name) && Meets(disk, selector, parse)
    case NoDevice => forall disk <- disks :: !Meets(disk, selector, parse)
    case _ => true
  }

  /** Every disk that meets the selector, and there is one, has a namesake that does not. */
  predicate AllShadowed(disks: seq<Disk>, selector: seq<Requirement>, parse: Parser) {
    && (exists disk <- disks :: Meets(disk, selector, parse))
    && forall disk <- disks :: Meets(disk, selector, parse) ==>
         exists other <- disks :: other.name == disk.name && !Meets(other, selector, parse)
  }

  lemma DistinctNotShadowed(disks: seq<Disk>, selector: seq<Requirement>, parse: Parser)
    requires DistinctNames(disks)
    ensures !AllShadowed(disks, selector, parse)
  {
    if i :| 0 <= i < |disks| && Meets(disks[i], selector, parse) {
      assert disks[i] in disks;
    }
  }

  /** Two disks of one name, of which only the second is large enough, leave no device. */
  lemma NamesakeShadows(parse: Parser) returns (disks: seq<Disk>, selector: seq<Requirement>)
    requires parse("5") == Some(5.0)
    ensures AllShadowed(disks, selector, parse) && forall answer :: !Ends(disks, selector, parse, answer)
  {
    disks, selector := [Disk("sda", 1), Disk("sda", 10)], [Requirement(Size, Gt, ["5"])];
    assert disks[0] in disks && disks[1] in disks && selector[0] in selector;
    assert Meets(disks[1], selector, parse) && !Meets(disks[0], selector, parse);
  }

  /** The names left after the first disks have been looked at. */
  predicate Left(name: string, disks: seq<Disk>, i: nat, selector: seq<Requirement>, parse: Parser)
    requires i <= |disks|
  {
    && (exists disk <- disks :: disk.name == name)
    && forall j :: 0 <= j < i && disks[j].name == name ==> Meets(disks[j], selector, parse)
  }

  method IndexByName(disks: seq<Disk>) returns (devices: map<string, Disk>)
    ensures forall n <- devices :: devices[n].name == n
    ensures forall n :: n in devices <==> exists disk <- disks :: disk.name == n
  {
    devices := map[];
    for i := 0 to |disks|
      invariant forall n <- devices :: devices[n].name == n
      invariant forall n <- devices :: exists disk <- disks :: disk.name == n
      invariant forall j :: 0 <= j < i ==> disks[j].name in devices
    {
      devices := devices[disks[i].name := disks[i]];
    }
  }

  lemma LeftNext(name: string, disks: seq<Disk>, i: nat, selector: seq<Requirement>, parse: Parser)
    requires i < |disks|
    ensures Left(name, disks, i + 1, selector, parse) <==>
              Left(name, disks, i, selector, parse) && (disks[i].name == name ==> Meets(disks[i], selector, parse))
  {
  }

  /** The names left are missing altogether exactly when no disk meets the selector or all that do are shadowed. */
  lemma SelectedOrShadowed(disks: seq<Disk>, selector: seq<Requirement>, parse: Parser)
    ensures (forall disk <- disks :: !Selected(disk.name, disks, selector, parse))
       <==> AllShadowed(disks, selector, parse) || forall disk <- disks :: !Meets(disk, selector, parse)
  {
    if i :| 0 <= i < |disks| && Selected(disks[i].name, disks, selector, parse) {
      assert disks[i] in disks && Meets(disks[i], selector, parse);
    }
  }

  /**
   * The devices start as all disks by name, lose the name of every disk that fails a requirement, and any one
   * of those left is returned.
   */
  method FindInstallationDevice(disks: seq<Disk>, selector: seq<Requirement>, parse: Parser) returns (choice: Choice)
    ensures choice.EvaluationError? <==> Ends(disks, selector, parse, Failed)
    ensures choice.Crash? <==> Ends(disks, selector, parse, Crashed)
    ensures choice.Device? ==>
              exists disk <- disks :: choice.path == Path(disk.name) && Selected(disk.name, disks, selector, parse)
    ensures choice.NoDevice? ==> forall disk <- disks :: !Selected(disk.name, disks, selector, parse)
    ensures choice.Device? || choice.NoDevice? ==>
              (Filtered(choice, disks, selector, parse) <==> !AllShadowed(disks, selector, parse))
    ensures DistinctNames(disks) ==> Filtered(choice, disks, selector, parse)
  {
    var devices := IndexByName(disks);
    for i := 0 to |disks|
      invariant forall n <- devices :: devices[n].name == n
      invariant forall n :: n in devices <==> Left(n, disks, i, selector, parse)
      invariant forall j: nat, answer :: j < i ==> !Stops(disks[j], selector, parse, answer)
    {
      var answer := EvaluateSelector(disks[i], selector, parse);
      if answer.Failed? || answer.Crashed? {
        assert EndsAt(disks, i, selector, parse, answer);
        forall j: nat, other | EndsAt(disks, j, selector, parse, other) ensures other == answer {
          OneEnd(disks, i, j, selector, parse, answer, other);
        }
        return if answer.Failed? then EvaluationError else Crash;
      }
      forall n {
        LeftNext(n, disks, i, selector, parse);
      }
      if answer.No? {
        devices := devices - {disks[i].name};
      }
    }
    choice := NoDevice;
    if devices.Keys != {} {
      var name :| name in devices;
      choice := Device(Path(devices[name].name));
    }
    assert forall n :: n in devices <==> Selected(n, disks, selector, parse);
    SelectedOrShadowed(disks, selector, parse);
    if DistinctNames(disks) {
      DistinctNotShadowed(disks, selector, parse);
    }
  }
}
