/**
 * The argument vectors of the pipeline: `_combine` flattens a list of
 * items into an argv, and `docker_build` / `docker_run` build their items.
 */
module Argv {

  import opened Wrappers
  import opened Strings

  /**
   * An element of the list handed to `_combine`: a `str`, a `list` or
   * `tuple` (both extend the result the same way), `None`, or a value of
   * any other type, identified by its representation.
   */
  datatype Item = Str(s: string) | Elems(elems: seq<string>) | Null | Other(repr: string)

  /** What building an argv raises. */
  datatype ArgError = TypeError(item: Item) | ValueError(message: string)

  const PortMessage := "Both or none of [port_host, port_docker] must be specified"

  /** What one item adds to the argv, or `None` when it is rejected. */
  function Contribution(item: Item): (r: Option<seq<string>>)
    ensures r.None? <==> item.Other?
  {
    match item
    case Str(s) => Some([s])
    case Elems(e) => Some(e)
    case Null => Some([])
    case Other(_) => None
  }

  /** One item on its own: its contribution, or the item itself as the error. */
  function FlattenOne(item: Item): (r: Result<seq<string>, Item>)
    ensures r.Err? <==> item.Other?
    ensures r.Err? ==> r.error == item
  {
    match Contribution(item)
    case Some(c) => Ok(c)
    case None => Err(item)
  }

  /** The first error of the two, or both argvs one after the other. */
  function Then(x: Result<seq<string>, Item>, y: Result<seq<string>, Item>): (r: Result<seq<string>, Item>)
    ensures r.Ok? <==> x.Ok? && y.Ok?
    ensures x.Err? ==> r == x
  {
    match x
    case Err(e) => Err(e)
    case Ok(u) =>
      match y
      case Ok(v) => Ok(u + v)
      case Err(e) => Err(e)
  }

  /**
   * The argv `_combine(items)` returns, or the item whose `TypeError` it
   * raises (the first item of another type).
   */
  function Flatten(items: seq<Item>): (r: Result<seq<string>, Item>)
    ensures r.Err? ==> r.error.Other?
    decreases |items|
  {
    if |items| == 0 then Ok([]) else Then(FlattenOne(items[0]), Flatten(items[1..]))
  }

  /** Joining results is associative. */
  lemma ThenAssoc(x: Result<seq<string>, Item>, y: Result<seq<string>, Item>, z: Result<seq<string>, Item>)
    ensures Then(Then(x, y), z) == Then(x, Then(y, z))
  {
    if x.Ok? && y.Ok? && z.Ok? {
      assert (x.value + y.value) + z.value == x.value + (y.value + z.value);
    }
  }

  /**
   * Flattening is in order: the argv of `a + b` is the argv of `a` followed
   * by the argv of `b`, and an error in `a` wins over one in `b`.
   */
  lemma {:induction false} FlattenAppend(a: seq<Item>, b: seq<Item>)
    ensures Flatten(a + b) == Then(Flatten(a), Flatten(b))
    decreases |a|
  {
    if |a| == 0 {
      assert a + b == b;
      if Flatten(b).Ok? {
        assert [] + Flatten(b).value == Flatten(b).value;
      }
    } else {
      assert (a + b)[0] == a[0];
      assert (a + b)[1..] == a[1..] + b;
      FlattenAppend(a[1..], b);
      ThenAssoc(FlattenOne(a[0]), Flatten(a[1..]), Flatten(b));
    }
  }

  /** What each kind of item contributes on its own. */
  lemma FlattenSingle(item: Item)
    ensures Flatten([item]) == FlattenOne(item)
    ensures item.Str? ==> Flatten([item]) == Ok([item.s])
    ensures item.Elems? ==> Flatten([item]) == Ok(item.elems)
    ensures item.Null? ==> Flatten([item]) == Ok([])
    ensures item.Other? ==> Flatten([item]) == Err(item)
  {
    assert [item][1..] == [];
    if item.Other? {
    } else {
      var c := Contribution(item).value;
      assert c + [] == c;
    }
  }

  /** `_combine` succeeds exactly when no item is of another type. */
  lemma {:induction false} FlattenOk(items: seq<Item>)
    ensures Flatten(items).Ok? <==> forall i :: 0 <= i < |items| ==> !items[i].Other?
    decreases |items|
  {
    if |items| > 0 {
      FlattenOk(items[1..]);
      if Flatten(items).Ok? {
        forall i | 0 <= i < |items| ensures !items[i].Other? {
          if i > 0 {
            assert items[i] == items[1..][i - 1];
          }
        }
      } else if !items[0].Other? {
        var i :| 0 <= i < |items[1..]| && items[1..][i].Other?;
        assert items[i + 1].Other?;
      }
    }
  }

  /** The error is the first item of another type. */
  lemma {:induction false} FlattenFirstError(items: seq<Item>)
    requires Flatten(items).Err?
    ensures exists i :: 0 <= i < |items| && items[i] == Flatten(items).error &&
                        (forall j :: 0 <= j < i ==> !items[j].Other?)
    decreases |items|
  {
    if items[0].Other? {
      assert items[0] == Flatten(items).error;
    } else {
      FlattenFirstError(items[1..]);
      var i :| 0 <= i < |items[1..]| && items[1..][i] == Flatten(items[1..]).error
        && forall j :: 0 <= j < i ==> !items[1..][j].Other?;
      forall j | 0 <= j < i + 1 ensures !items[j].Other? {
        if j > 0 {
          assert items[j] == items[1..][j - 1];
        }
      }
      assert items[i + 1] == Flatten(items).error;
    }
  }

  /** `_combine(items)`: the Python loop, appending or extending one item at a time. */
  method Combine(items: seq<Item>) returns (r: Result<seq<string>, Item>)
    ensures r == Flatten(items)
  {
    var args: seq<string> := [];
    var i := 0;
    while i < |items|
      invariant 0 <= i <= |items|
      invariant Flatten(items[..i]) == Ok(args)
    {
      var item := items[i];
      FlattenAppend(items[..i], [item]);
      FlattenSingle(item);
      assert items[..i + 1] == items[..i] + [item];
      match item {
        case Str(s) =>
          args := args + [s];
        case Elems(e) =>
          args := args + e;
        case Null =>
          assert args + [] == args;
        case Other(_) =>
          FlattenAppend(items[..i + 1], items[i + 1..]);
          assert items[..i + 1] + items[i + 1..] == items;
          return Err(item);
      }
      i := i + 1;
    }
    assert items[..i] == items;
    return Ok(args);
  }

  // ---- docker build ----

  /** The items `docker_build` passes to `_combine`; the docker file is `str(docker_file)` when given. */
  function BuildItems(sourceDir: string, imageName: string, dockerFile: Option<string>): seq<Item> {
    [Str("docker"), Str("build"), Str("-t"), Str(imageName),
     if dockerFile.Some? then Elems(["-f", dockerFile.value]) else Null,
     Str(sourceDir)]
  }

  /** The flags `-f <file>` appear exactly when a docker file is given. */
  function FileFlag(dockerFile: Option<string>): (r: seq<string>)
    ensures |r| == if dockerFile.Some? then 2 else 0
  {
    if dockerFile.Some? then ["-f", dockerFile.value] else []
  }

  /**
   * The argv of `docker build`: tag, then `-f <file>` only when a docker
   * file is given, and the source directory last.
   */
  lemma BuildArgv(sourceDir: string, imageName: string, dockerFile: Option<string>)
    ensures Flatten(BuildItems(sourceDir, imageName, dockerFile))
      == Ok(["docker", "build", "-t", imageName] + FileFlag(dockerFile) + [sourceDir])
  {
    var items := BuildItems(sourceDir, imageName, dockerFile);
    FlattenStrings4("docker", "build", "-t", imageName);
    FlattenSingle(items[4]);
    FlattenSingle(items[5]);
    assert items == [Str("docker"), Str("build"), Str("-t"), Str(imageName)] + [items[4]] + [items[5]];
    FlattenAppend([Str("docker"), Str("build"), Str("-t"), Str(imageName)], [items[4]]);
    FlattenAppend([Str("docker"), Str("build"), Str("-t"), Str(imageName)] + [items[4]], [items[5]]);
  }

  /** Four strings flatten to themselves. */
  lemma FlattenStrings4(a: string, b: string, c: string, d: string)
    ensures Flatten([Str(a), Str(b), Str(c), Str(d)]) == Ok([a, b, c, d])
  {
    FlattenSingle(Str(d));
    FlattenCons(Str(c), [Str(d)]);
    assert [Str(c)] + [Str(d)] == [Str(c), Str(d)] && [c] + [d] == [c, d];
    FlattenCons(Str(b), [Str(c), Str(d)]);
    assert [Str(b)] + [Str(c), Str(d)] == [Str(b), Str(c), Str(d)] && [b] + [c, d] == [b, c, d];
    FlattenCons(Str(a), [Str(b), Str(c), Str(d)]);
    assert [Str(a)] + [Str(b), Str(c), Str(d)] == [Str(a), Str(b), Str(c), Str(d)] && [a] + [b, c, d] == [a, b, c, d];
  }

  /** Three strings flatten to themselves. */
  lemma FlattenStrings3(a: string, b: string, c: string)
    ensures Flatten([Str(a), Str(b), Str(c)]) == Ok([a, b, c])
  {
    FlattenSingle(Str(c));
    FlattenCons(Str(b), [Str(c)]);
    assert [Str(b)] + [Str(c)] == [Str(b), Str(c)] && [b] + [c] == [b, c];
    FlattenCons(Str(a), [Str(b), Str(c)]);
    assert [Str(a)] + [Str(b), Str(c)] == [Str(a), Str(b), Str(c)] && [a] + [b, c] == [a, b, c];
  }

  /** Flattening an item in front of a list. */
  lemma FlattenCons(x: Item, rest: seq<Item>)
    ensures Flatten([x] + rest) == Then(FlattenOne(x), Flatten(rest))
  {
    assert ([x] + rest)[0] == x;
    assert ([x] + rest)[1..] == rest;
  }

  /** Where the docker file and the source directory sit in the argv. */
  lemma BuildArgvPositions(sourceDir: string, imageName: string, dockerFile: Option<string>)
    ensures Flatten(BuildItems(sourceDir, imageName, dockerFile)).Ok?
    ensures var argv := Flatten(BuildItems(sourceDir, imageName, dockerFile)).value;
      && |argv| == (if dockerFile.Some? then 7 else 5)
      && argv[|argv| - 1] == sourceDir
      && argv[3] == imageName
      && (dockerFile.Some? ==> argv[4] == "-f" && argv[5] == dockerFile.value)
  {
    BuildArgv(sourceDir, imageName, dockerFile);
  }

  // ---- docker run ----

  /**
   * The port mapping of `docker_run`: none when neither port is given,
   * `ValueError` when only one is, `str(host) + ':' + str(docker)` otherwise.
   */
  function PortMapping(portHost: Option<int>, portDocker: Option<int>): Result<Option<string>, ArgError> {
    if portHost.Some? || portDocker.Some? then
      if portHost.None? || portDocker.None? then Err(ValueError(PortMessage))
      else Ok(Some(IntToString(portHost.value) + ":" + IntToString(portDocker.value)))
    else Ok(None)
  }

  /** Exactly one port given is the only error; no port gives no mapping. */
  lemma PortMappingCases(portHost: Option<int>, portDocker: Option<int>)
    ensures PortMapping(portHost, portDocker).Err? <==> portHost.Some? != portDocker.Some?
    ensures PortMapping(portHost, portDocker) == Ok(None) <==> portHost.None? && portDocker.None?
    ensures PortMapping(portHost, portDocker).Err? ==>
      PortMapping(portHost, portDocker).error == ValueError(PortMessage)
  {
  }

  /**
   * Both ports given: the mapping splits at its only `:` into the two
   * decimal numbers, which read back as the ports when they are not negative.
   */
  lemma PortMappingRoundTrip(host: int, docker: int)
    ensures PortMapping(Some(host), Some(docker)).Ok?
    ensures var m := PortMapping(Some(host), Some(docker)).value;
      && m.Some? && m.value != ""
      && Split(m.value, ':') == [IntToString(host), IntToString(docker)]
    ensures host >= 0 && docker >= 0 ==>
      var parts := Split(PortMapping(Some(host), Some(docker)).value.value, ':');
      && IsDigits(parts[0]) && IsDigits(parts[1])
      && DigitsValue(parts[0]) == host && DigitsValue(parts[1]) == docker
  {
    var a, b := IntToString(host), IntToString(docker);
    assert a + ":" + b == a + [':'] + b;
    SplitAppend(a, ':', b);
    SplitNoSeparator(a, ':');
    SplitNoSeparator(b, ':');
    if host >= 0 && docker >= 0 {
      NatToStringValue(host);
      NatToStringValue(docker);
    }
  }

  /** The items `docker_run` passes to `_combine`; an empty mapping or name is falsy and left out. */
  function RunItems(imageName: string, containerName: Option<string>, detach: bool,
                    mapping: Option<string>): seq<Item> {
    [Str("docker"), Str("run"), Str("--rm"),
     if detach then Str("-d") else Null,
     if mapping.Some? && mapping.value != "" then Elems(["-p", mapping.value]) else Null,
     if containerName.Some? && containerName.value != "" then Elems(["--name", containerName.value]) else Null,
     Str(imageName)]
  }

  /** A flag and its value, present only when the value is given and non-empty. */
  function OptionFlag(flag: string, value: Option<string>): (r: seq<string>)
    ensures |r| == if value.Some? && value.value != "" then 2 else 0
  {
    if value.Some? && value.value != "" then [flag, value.value] else []
  }

  /**
   * The argv of `docker run --rm`: `-d` when detached, `-p <mapping>`,
   * `--name <name>` when the name is non-empty, and the image last.
   */
  lemma RunArgv(imageName: string, containerName: Option<string>, detach: bool, mapping: Option<string>)
    ensures Flatten(RunItems(imageName, containerName, detach, mapping))
      == Ok(["docker", "run", "--rm"] + (if detach then ["-d"] else [])
            + OptionFlag("-p", mapping) + OptionFlag("--name", containerName) + [imageName])
  {
    var items := RunItems(imageName, containerName, detach, mapping);
    var head := [Str("docker"), Str("run"), Str("--rm")];
    FlattenStrings3("docker", "run", "--rm");
    FlattenSingle(items[3]);
    FlattenSingle(items[4]);
    FlattenSingle(items[5]);
    FlattenSingle(items[6]);
    assert items == head + [items[3]] + [items[4]] + [items[5]] + [items[6]];
    FlattenAppend(head, [items[3]]);
    FlattenAppend(head + [items[3]], [items[4]]);
    FlattenAppend(head + [items[3]] + [items[4]], [items[5]]);
    FlattenAppend(head + [items[3]] + [items[4]] + [items[5]], [items[6]]);
  }

  /**
   * `docker_run`'s argv, or its `ValueError`; with neither port given
   * there is no `-p` flag, and with both there is `-p host:docker`.
   */
  function DockerRunItems(imageName: string, containerName: Option<string>, detach: bool,
                          portHost: Option<int>, portDocker: Option<int>): Result<seq<Item>, ArgError> {
    match PortMapping(portHost, portDocker)
    case Err(e) => Err(e)
    case Ok(m) => Ok(RunItems(imageName, containerName, detach, m))
  }

  /** The port cases of `docker_run`, on its whole argv. */
  lemma DockerRunPorts(imageName: string, containerName: Option<string>, detach: bool,
                       portHost: Option<int>, portDocker: Option<int>)
    ensures DockerRunItems(imageName, containerName, detach, portHost, portDocker).Err?
      <==> portHost.Some? != portDocker.Some?
    ensures portHost.None? && portDocker.None? ==>
      Flatten(DockerRunItems(imageName, containerName, detach, portHost, portDocker).value)
      == Ok(["docker", "run", "--rm"] + (if detach then ["-d"] else [])
            + OptionFlag("--name", containerName) + [imageName])
    ensures portHost.Some? && portDocker.Some? ==>
      Flatten(DockerRunItems(imageName, containerName, detach, portHost, portDocker).value)
      == Ok(["docker", "run", "--rm"] + (if detach then ["-d"] else [])
            + ["-p", IntToString(portHost.value) + ":" + IntToString(portDocker.value)]
            + OptionFlag("--name", containerName) + [imageName])
  {
    PortMappingCases(portHost, portDocker);
    match PortMapping(portHost, portDocker)
    case Err(_) =>
    case Ok(m) =>
      RunArgv(imageName, containerName, detach, m);
      if m.None? {
        var d: seq<string> := if detach then ["-d"] else [];
        assert ["docker", "run", "--rm"] + d + OptionFlag("-p", m) == ["docker", "run", "--rm"] + d;
      }
  }
}
