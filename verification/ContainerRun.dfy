/** The boundary between the container service and the runtime's command line: which names and images
    are accepted, and how the argument vector built from accepted inputs reads back. */
module ContainerRun {
  import opened Text
  import opened Regex
  import PortMapping

  // ----- the patterns -----

  const LOWER_DIGIT: seq<(char, char)> := [('a', 'z'), ('0', '9')]
  const ALNUM: seq<(char, char)> := [('a', 'z'), ('A', 'Z'), ('0', '9')]
  const LETTER: seq<(char, char)> := [('A', 'Z'), ('a', 'z')]
  const HEX: seq<(char, char)> := [('0', '9'), ('a', 'f'), ('A', 'F')]
  const NAME_REST: seq<(char, char)> := [('a', 'z'), ('A', 'Z'), ('0', '9'), ('_', '_'), ('.', '.'), ('-', '-')]

  function NamePattern(): Re { Cat(One(ALNUM), Star(One(NAME_REST))) }

  function NameComponent(): Re
  {
    var separator := Alt(One([('.', '.'), ('_', '_')]), Alt(Literal("__"), Plus(Char('-'))));
    Cat(Plus(One(LOWER_DIGIT)), Star(Cat(separator, Plus(One(LOWER_DIGIT)))))
  }

  function DomainComponent(): Re
  {
    Cat(One(ALNUM), Opt(Cat(Star(One(ALNUM + [('-', '-')])), One(ALNUM))))
  }

  function Domain(): Re
  {
    Cat(DomainComponent(),
        Cat(Star(Cat(Char('.'), DomainComponent())), Opt(Cat(Char(':'), Plus(One([('0', '9')]))))))
  }

  function ImagePath(): Re { Cat(NameComponent(), Star(Cat(Char('/'), NameComponent()))) }

  function Tag(): Re { Cat(One(LETTER + [('0', '9'), ('_', '_')]), Rep(One(NAME_REST), 0, 127)) }

  function Digest(): Re
  {
    var word := Cat(One(LETTER), Star(One(ALNUM)));
    Cat(word,
        Cat(Star(Cat(One([('-', '-'), ('_', '_'), ('+', '+'), ('.', '.')]), word)),
            Cat(Char(':'), AtLeast(One(HEX), 32))))
  }

  function ImagePattern(): Re
  {
    Cat(Opt(Cat(Domain(), Char('/'))),
        Cat(ImagePath(), Cat(Opt(Cat(Char(':'), Tag())), Opt(Cat(Char('@'), Digest())))))
  }

  // ----- nothing accepted can be taken for a flag -----

  predicate IsAlnum(c: char) { 'a' <= c <= 'z' || 'A' <= c <= 'Z' || '0' <= c <= '9' }

  lemma TwoRanges(x: (char, char), y: (char, char), c: char)
    ensures InRanges([x, y], c) <==> x.0 <= c <= x.1 || y.0 <= c <= y.1
  {
    assert [x, y][1..] == [y] && [y][1..] == [];
    assert InRanges([y], c) <==> y.0 <= c <= y.1;
  }

  lemma ThreeRanges(x: (char, char), y: (char, char), z: (char, char), c: char)
    ensures InRanges([x, y, z], c) <==> x.0 <= c <= x.1 || y.0 <= c <= y.1 || z.0 <= c <= z.1
  {
    TwoRanges(y, z, c);
    assert [x, y, z][1..] == [y, z];
  }

  lemma AlnumRanges(c: char)
    ensures InRanges(ALNUM, c) <==> IsAlnum(c)
    ensures InRanges(LOWER_DIGIT, c) <==> 'a' <= c <= 'z' || '0' <= c <= '9'
  {
    TwoRanges(('a', 'z'), ('0', '9'), c);
    ThreeRanges(('a', 'z'), ('A', 'Z'), ('0', '9'), c);
  }

  lemma NameComponentStarts(c: char)
    ensures CanStart(NameComponent(), c) ==> InRanges(LOWER_DIGIT, c)
    ensures !Nullable(NameComponent())
  {
    assert !Nullable(Plus(One(LOWER_DIGIT)));
    assert CanStart(Plus(One(LOWER_DIGIT)), c) <==> InRanges(LOWER_DIGIT, c);
  }

  lemma DomainStarts(c: char)
    ensures CanStart(Domain(), c) ==> InRanges(ALNUM, c)
    ensures !Nullable(Domain())
  {
    assert !Nullable(DomainComponent());
    assert CanStart(DomainComponent(), c) <==> InRanges(ALNUM, c);
  }

  lemma ImageStarts(c: char)
    ensures CanStart(ImagePattern(), c) ==> IsAlnum(c)
    ensures !Nullable(ImagePattern())
  {
    AlnumRanges(c);
    NameComponentStarts(c);
    DomainStarts(c);
    var registry := Cat(Domain(), Char('/'));
    var rest := Cat(ImagePath(), Cat(Opt(Cat(Char(':'), Tag())), Opt(Cat(Char('@'), Digest()))));
    assert ImagePattern() == Cat(Opt(registry), rest);
    assert CanStart(registry, c) ==> InRanges(ALNUM, c);
    assert CanStart(Opt(registry), c) <==> CanStart(registry, c);
    assert !Nullable(ImagePath()) && (CanStart(ImagePath(), c) ==> InRanges(LOWER_DIGIT, c));
    assert !Nullable(rest) && (CanStart(rest, c) ==> InRanges(LOWER_DIGIT, c));
  }

  /** An accepted image is not empty and starts with a letter or a digit, never with '-'. */
  lemma ImageIsPositional(image: string)
    requires ImageOk(image)
    ensures image != "" && IsAlnum(image[0])
  {
    NullableMatchesEmpty(ImagePattern());
    if image == "" {
      ImageStarts('-');
    } else {
      ImageStarts(image[0]);
      FirstCharacter(ImagePattern(), image);
    }
  }

  /** A name is accepted exactly when it is a letter or digit followed by letters, digits, '_', '.'
      and '-'. */
  lemma NameExactly(name: string)
    ensures Matches(NamePattern(), name) <==>
              name != "" && IsAlnum(name[0])
              && forall i :: 1 <= i < |name| ==> IsAlnum(name[i]) || name[i] == '_' || name[i] == '.' || name[i] == '-'
  {
    OneThen(ALNUM, Star(One(NAME_REST)), name);
    if name != "" {
      AlnumRanges(name[0]);
      StarOfClass(NAME_REST, name[1..]);
      forall c
        ensures InRanges(NAME_REST, c) <==> IsAlnum(c) || c == '_' || c == '.' || c == '-'
      {
        NameRestRanges(c);
      }
      assert forall i :: 1 <= i < |name| ==> name[i] == name[1..][i - 1];
      assert forall i :: 0 <= i < |name| - 1 ==> name[1..][i] == name[i + 1];
    }
  }

  lemma NameRestRanges(c: char)
    ensures InRanges(NAME_REST, c) <==> IsAlnum(c) || c == '_' || c == '.' || c == '-'
  {
    var marks := [('_', '_'), ('.', '.'), ('-', '-')];
    ThreeRanges(('_', '_'), ('.', '.'), ('-', '-'), c);
    assert NAME_REST[1..][1..][1..] == marks;
    assert InRanges(NAME_REST[1..][1..], c) <==> '0' <= c <= '9' || InRanges(marks, c);
    assert InRanges(NAME_REST[1..], c) <==> 'A' <= c <= 'Z' || InRanges(NAME_REST[1..][1..], c);
  }

  // ----- validation -----

  datatype Verdict = Valid | BadName | BadImage | BadPort(index: nat)

  ghost predicate NameOk(name: string) { name == "" || Matches(NamePattern(), name) }

  ghost predicate ImageOk(image: string) { Matches(ImagePattern(), image) }

  ghost predicate InputsOk(name: string, image: string, ports: seq<string>)
  {
    && NameOk(name) && ImageOk(image)
    && forall i :: 0 <= i < |ports| ==> PortMapping.Acceptable(ports[i])
  }

  method IsName(name: string) returns (ok: bool)
    ensures ok <==> NameOk(name)
  {
    if name == "" {
      return true;
    }
    ok := MatchString(NamePattern(), name);
  }

  method IsImage(image: string) returns (ok: bool)
    ensures ok <==> ImageOk(image)
  {
    ok := MatchString(ImagePattern(), image);
  }

  method FirstBadPort(ports: seq<string>) returns (bad: nat)
    ensures bad <= |ports| && forall i :: 0 <= i < bad ==> PortMapping.Acceptable(ports[i])
    ensures bad < |ports| ==> !PortMapping.Acceptable(ports[bad])
  {
    bad := 0;
    while bad < |ports|
      invariant bad <= |ports| && forall i :: 0 <= i < bad ==> PortMapping.Acceptable(ports[i])
    {
      var portOk := PortMapping.ValidatePortMapping(ports[bad]);
      if !portOk {
        return;
      }
      bad := bad + 1;
    }
  }

  /** The sole gate before the command line; cmd is deliberately not looked at. */
  method ValidateRunFromImageInputs(name: string, image: string, ports: seq<string>, cmd: seq<string>)
    returns (v: Verdict)
    ensures v == Valid <==> InputsOk(name, image, ports)
    ensures v == BadName <==> !NameOk(name)
    ensures v == BadImage <==> NameOk(name) && !ImageOk(image)
    ensures v.BadPort? ==> v.index < |ports| && !PortMapping.Acceptable(ports[v.index])
                           && forall i :: 0 <= i < v.index ==> PortMapping.Acceptable(ports[i])
  {
    var nameOk := IsName(name);
    if !nameOk {
      return BadName;
    }
    var imageOk := IsImage(image);
    if !imageOk {
      return BadImage;
    }
    var bad := FirstBadPort(ports);
    return if bad < |ports| then BadPort(bad) else Valid;
  }

  // ----- the argument vector -----

  function PortArgs(ports: seq<string>): seq<string>
  {
    if ports == [] then [] else ["-p", ports[0]] + PortArgs(ports[1..])
  }

  function Argv(name: string, image: string, ports: seq<string>, cmd: seq<string>): seq<string>
  {
    ["run", "-d", "--name", name] + PortArgs(ports) + [image] + cmd
  }

  /** What the runtime understands from an argument vector. */
  datatype Command = Command(detached: bool, names: seq<string>, ports: seq<string>, image: string, cmd: seq<string>)

  predicate IsFlag(token: string) { |token| > 0 && token[0] == '-' }

  /** The run grammar: flags with their values, then the first token that is not a flag is the image,
      and everything after it is the command. */
  function ReadOptions(args: seq<string>): (r: Option<Command>)
    ensures r.Some? ==> !IsFlag(r.value.image)
  {
    if args == [] then None
    else if !IsFlag(args[0]) then Some(Command(false, [], [], args[0], args[1..]))
    else if args[0] == "-d" then
      match ReadOptions(args[1..])
      case None => None
      case Some(c) => Some(c.(detached := true))
    else if |args| < 2 then None
    else
      match ReadOptions(args[2..])
      case None => None
      case Some(c) =>
        if args[0] == "--name" then Some(c.(names := [args[1]] + c.names))
        else if args[0] == "-p" then Some(c.(ports := [args[1]] + c.ports))
        else None
  }

  function ReadRun(args: seq<string>): Option<Command>
  {
    if args == [] || args[0] != "run" then None else ReadOptions(args[1..])
  }

  lemma {:induction false} ReadPorts(ports: seq<string>, image: string, cmd: seq<string>)
    requires !IsFlag(image)
    ensures ReadOptions(PortArgs(ports) + [image] + cmd) == Some(Command(false, [], ports, image, cmd))
  {
    var args := PortArgs(ports) + [image] + cmd;
    if ports == [] {
      assert args == [image] + cmd && args[1..] == cmd;
    } else {
      ReadPorts(ports[1..], image, cmd);
      assert args[2..] == PortArgs(ports[1..]) + [image] + cmd;
      assert args[0] == "-p" && args[1] == ports[0];
      assert [ports[0]] + ports[1..] == ports;
    }
  }

  lemma ReadNamed(name: string, c: Command, tail: seq<string>)
    requires ReadOptions(tail) == Some(c) && c.names == []
    ensures ReadOptions(["--name", name] + tail) == Some(c.(names := [name]))
  {
    var args := ["--name", name] + tail;
    assert args[2..] == tail && args[0] == "--name" && args[1] == name;
    assert IsFlag(args[0]) && |args[0]| == 6;
    assert [name] + c.names == [name];
  }

  lemma ReadDetached(c: Command, tail: seq<string>)
    requires ReadOptions(tail) == Some(c)
    ensures ReadRun(["run", "-d"] + tail) == Some(c.(detached := true))
  {
    var args := ["run", "-d"] + tail;
    assert args[1..] == ["-d"] + tail;
    assert (["-d"] + tail)[1..] == tail;
  }

  lemma ArgvShape(name: string, image: string, ports: seq<string>, cmd: seq<string>)
    ensures Argv(name, image, ports, cmd)
         == ["run", "-d"] + (["--name", name] + (PortArgs(ports) + [image] + cmd))
  {
  }

  lemma PlainImageReadsBack(name: string, image: string, ports: seq<string>, cmd: seq<string>)
    requires !IsFlag(image)
    ensures ReadRun(Argv(name, image, ports, cmd)) == Some(Command(true, [name], ports, image, cmd))
  {
    var tail := PortArgs(ports) + [image] + cmd;
    ReadPorts(ports, image, cmd);
    ReadNamed(name, Command(false, [], ports, image, cmd), tail);
    ReadDetached(Command(false, [name], ports, image, cmd), ["--name", name] + tail);
    ArgvShape(name, image, ports, cmd);
  }

  /** The vector reads back to exactly the inputs it was built from, provided the image does not look
      like a flag, and only then. */
  lemma ArgvReadsBack(name: string, image: string, ports: seq<string>, cmd: seq<string>)
    ensures ReadRun(Argv(name, image, ports, cmd)) == Some(Command(true, [name], ports, image, cmd)) <==> !IsFlag(image)
  {
    if !IsFlag(image) {
      PlainImageReadsBack(name, image, ports, cmd);
    }
  }

  /** Whatever the validator accepts reaches the runtime in the slots it was meant for, whatever the
      command is; so accepted inputs are never confused with one another. */
  lemma AcceptedInputsReadBack(name: string, image: string, ports: seq<string>, cmd: seq<string>)
    requires InputsOk(name, image, ports)
    ensures ReadRun(Argv(name, image, ports, cmd)) == Some(Command(true, [name], ports, image, cmd))
  {
    ImageIsPositional(image);
    PlainImageReadsBack(name, image, ports, cmd);
  }

  method BuildArgv(name: string, image: string, ports: seq<string>, cmd: seq<string>) returns (args: seq<string>)
    ensures args == Argv(name, image, ports, cmd)
  {
    args := ["run", "-d", "--name", name];
    for i := 0 to |ports|
      invariant args + PortArgs(ports[i..]) == ["run", "-d", "--name", name] + PortArgs(ports)
    {
      assert ports[i..][1..] == ports[i + 1..];
      args := args + ["-p", ports[i]];
    }
    assert PortArgs(ports[|ports|..]) == [];
    args := args + [image];
    args := args + cmd;
  }

  datatype RunResult = Rejected(why: Verdict) | RuntimeFailed | EmptyId | Started(id: string)

  /** exec stands for the runtime: the trimmed output, or None when the process fails. */
  method RunFromImage(name: string, image: string, ports: seq<string>, cmd: seq<string>, exec: seq<string> -> Option<string>)
    returns (r: RunResult, args: seq<string>)
    ensures r.Rejected? <==> !InputsOk(name, image, ports)
    ensures r.Rejected? ==> args == []
    ensures !r.Rejected? ==>
              && args == Argv(name, image, ports, cmd)
              && ReadRun(args) == Some(Command(true, [name], ports, image, cmd))
              && (r == match exec(args)
                       case None => RuntimeFailed
                       case Some(id) => if id == "" then EmptyId else Started(id))
  {
    var v := ValidateRunFromImageInputs(name, image, ports, cmd);
    if v != Valid {
      return Rejected(v), [];
    }
    args := BuildArgv(name, image, ports, cmd);
    AcceptedInputsReadBack(name, image, ports, cmd);
    match exec(args)
    case None =>
      return RuntimeFailed, args;
    case Some(id) =>
      if id == "" {
        return EmptyId, args;
      }
      return Started(id), args;
  }
}
