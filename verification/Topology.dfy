/**
 The topology that `tools/autocoder.py` reads, and its validation. A key that is absent is None
 or the empty string, as the validator treats an empty name like a missing one.
 */
module Topology {
  import opened Wrappers

  datatype Component = Component(id: Option<nat>, name: string, cls: string, inst: string)

  /** The value of `op_class`: the key is absent, or has no value (which YAML reads as null), or a text. */
  datatype ClassKey = Absent | Null | Text(text: string)

  datatype Command = Command(
    name: string, target: Option<nat>, opcode: nat, opClass: ClassKey, description: string)

  datatype Param = Param(name: string, tmr: bool)

  /** A port of the generated class: a member of an instance. */
  datatype Port = Port(inst: string, member: Member)

  datatype Member =
    | CommandOut | CmdInput | TelemetryOut | EventOut | AckOut | TelemIn | TelemetryIn | EventIn | CmdIn
    | RoutePort | Staging | HubInput(index: nat) | Other(name: string)

  /** A line of `custom_wiring`, as far as the generated checks depend on it. */
  datatype CustomLine =
    | SetMissionStateSource
    | SetBatteryThresholdSources
    | AddTelemListener(dst: Port)
    | AddEventListener(dst: Port)
    | Wire(src: Port, dst: Port)
    | OtherLine

  datatype Topology = Topology(
    components: seq<Component>, commands: seq<Command>, params: seq<Param>, custom: seq<CustomLine>)

  // ---------------------------------------------------------------- what is accepted

  const OP_CLASSES := {"HOUSEKEEPING", "OPERATIONAL", "RESTRICTED"}

  predicate Complete(c: Component) {
    c.id.Some? && c.name != "" && c.cls != "" && c.inst != ""
  }

  ghost predicate ComponentsOk(cs: seq<Component>, n: nat)
    requires n <= |cs|
  {
    && (forall i :: 0 <= i < n ==> Complete(cs[i]))
    && (forall i, j :: 0 <= i < j < n ==> cs[i].id != cs[j].id)
  }

  /** `target` is the number of a component. */
  ghost predicate Known(cs: seq<Component>, n: nat, target: Option<nat>)
    requires n <= |cs|
  {
    target.Some? && exists i :: 0 <= i < n && cs[i].id == target
  }

  predicate OpClassOk(cmd: Command) {
    cmd.opClass.Text? && cmd.opClass.text != "" ==> cmd.opClass.text in OP_CLASSES
  }

  ghost predicate CommandsOk(cs: seq<Component>, cmds: seq<Command>, n: nat)
    requires n <= |cmds|
  {
    && (forall j :: 0 <= j < n ==> Known(cs, |cs|, cmds[j].target) && OpClassOk(cmds[j]))
    && (forall i, j :: 0 <= i < j < n ==> cmds[i].target != cmds[j].target || cmds[i].opcode != cmds[j].opcode)
  }

  ghost predicate Accepted(t: Topology) {
    ComponentsOk(t.components, |t.components|) && CommandsOk(t.components, t.commands, |t.commands|)
  }

  // ---------------------------------------------------------------- the validator

  datatype Error =
    | MissingId
    | DuplicateId(id: nat)
    | MissingField(id: nat, field: string)
    | UnknownTarget(name: string)
    | OpcodeConflict(target: Option<nat>, opcode: nat)
    | InvalidOpClass(name: string)

  method MissingFields(id: nat, c: Component) returns (errors: seq<Error>)
    ensures errors == [] <==> c.name != "" && c.cls != "" && c.inst != ""
  {
    errors := [];
    if c.name == "" {
      errors := errors + [MissingField(id, "name")];
    }
    if c.cls == "" {
      errors := errors + [MissingField(id, "class")];
    }
    if c.inst == "" {
      errors := errors + [MissingField(id, "instance")];
    }
  }

  /** The pass over the components, and the numbers it has seen. */
  method ValidateComponents(cs: seq<Component>) returns (errors: seq<Error>, seen: set<nat>)
    ensures errors == [] <==> ComponentsOk(cs, |cs|)
    ensures forall x :: x in seen <==> Known(cs, |cs|, Some(x))
  {
    errors, seen := [], {};
    for i := 0 to |cs|
      invariant errors == [] <==> ComponentsOk(cs, i)
      invariant forall x :: x in seen <==> Known(cs, i, Some(x))
    {
      if cs[i].id.None? {
        errors := errors + [MissingId];
      } else {
        var id := cs[i].id.value;
        assert id in seen ==> exists k :: 0 <= k < i && cs[k].id == cs[i].id;
        if id in seen {
          errors := errors + [DuplicateId(id)];
        }
        seen := seen + {id};
        var missing := MissingFields(id, cs[i]);
        errors := errors + missing;
      }
    }
  }

  method ValidateCommands(cs: seq<Component>, cmds: seq<Command>, valid: set<nat>) returns (errors: seq<Error>)
    requires forall x :: x in valid <==> Known(cs, |cs|, Some(x))
    ensures errors == [] <==> CommandsOk(cs, cmds, |cmds|)
  {
    errors := [];
    var seen: set<(Option<nat>, nat)> := {};
    for j := 0 to |cmds|
      invariant errors == [] <==> CommandsOk(cs, cmds, j)
      invariant forall k :: k in seen <==> exists i :: 0 <= i < j && (cmds[i].target, cmds[i].opcode) == k
    {
      var cmd := cmds[j];
      var key := (cmd.target, cmd.opcode);
      if cmd.target.None? || cmd.target.value !in valid {
        errors := errors + [UnknownTarget(cmd.name)];
      }
      if key in seen {
        errors := errors + [OpcodeConflict(cmd.target, cmd.opcode)];
      }
      seen := seen + {key};
      if !OpClassOk(cmd) {
        errors := errors + [InvalidOpClass(cmd.name)];
      }
    }
  }

  /** The validator reports nothing exactly when the topology is acceptable. */
  method Validate(t: Topology) returns (errors: seq<Error>)
    ensures errors == [] <==> Accepted(t)
  {
    var seen, more;
    errors, seen := ValidateComponents(t.components);
    more := ValidateCommands(t.components, t.commands, seen);
    errors := errors + more;
  }
}
