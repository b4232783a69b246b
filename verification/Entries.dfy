/** One entry of a configuration file: how it is read, and what it has to say for a service to be
    read from it. */
module Entries {
  import opened Wrappers
  import opened Json
  import opened Scan

  // ----- reading

  /** The outcome of reading an optional field: a value, nothing, or a value of the wrong type. */
  datatype Field<+T> = Given(value: T) | Absent | Wrong

  function At(fields: map<string, Value>, key: string): Value {
    if key in fields then fields[key] else Null
  }

  function StringField(v: Value): Field<string> {
    match v
    case Str(s) => Given(s)
    case Null => Absent
    case _ => Wrong
  }

  function BoolField(v: Value): Field<bool> {
    match v
    case Bool(b) => Given(b)
    case Null => Absent
    case _ => Wrong
  }

  function StringOf(v: Value): string {
    if v.Str? then v.s else ""
  }

  function StringsOf(items: seq<Value>): seq<string> {
    seq(|items|, i requires 0 <= i < |items| => StringOf(items[i]))
  }

  function Strings(xs: seq<string>): seq<Value> {
    seq(|xs|, i requires 0 <= i < |xs| => Str(xs[i]))
  }

  function Texts(m: map<string, string>): map<string, Value> {
    map k | k in m :: Str(m[k])
  }

  function TextsOf(fields: map<string, Value>): map<string, string> {
    map k | k in fields :: StringOf(fields[k])
  }

  lemma StringsBack(xs: seq<string>, m: map<string, string>)
    ensures StringsOf(Strings(xs)) == xs && TextsOf(Texts(m)) == m
  {
  }

  function ListField(v: Value): Field<seq<string>> {
    match v
    case Arr(items) =>
      if forall i :: 0 <= i < |items| ==> items[i].Str? then Given(StringsOf(items)) else Wrong
    case Null => Absent
    case _ => Wrong
  }

  function MapField(v: Value): Field<map<string, string>> {
    match v
    case Obj(fields) =>
      if forall k :: k in fields ==> fields[k].Str? then Given(TextsOf(fields)) else Wrong
    case Null => Absent
    case _ => Wrong
  }

  function ToOption<T>(f: Field<T>): Option<T> {
    match f
    case Given(value) => Some(value)
    case _ => None
  }

  /** The members a `RawServer` is read from: an object's, or an array's in declaration order. */
  function Members(v: Value): Option<map<string, Value>> {
    match v
    case Obj(fields) => Some(fields)
    case Arr(items) =>
      if |items| == 6
      then Some(map["command" := items[0], "args" := items[1], "cwd" := items[2], "socket" := items[3],
                    "env" := items[4], "enabled" := items[5]])
      else None
    case _ => None
  }

  /** An entry is a server when every known field has the right type and there is a command. */
  function ParseServer(name: string, v: Value): Option<Service> {
    match Members(v)
    case None => None
    case Some(fields) =>
      var command, args := StringField(At(fields, "command")), ListField(At(fields, "args"));
      var cwd, socket := StringField(At(fields, "cwd")), StringField(At(fields, "socket"));
      var env, enabled := MapField(At(fields, "env")), BoolField(At(fields, "enabled"));
      if !command.Given? || args.Wrong? || cwd.Wrong? || socket.Wrong? || env.Wrong? || enabled.Wrong? then None
      else
        Some(Service(name, command.value, if args.Given? then args.value else [], ToOption(cwd), ToOption(socket),
                     ToOption(env), ToOption(enabled)))
  }

  // ----- what an entry says

  /** A member with this text, or without one: then it is missing or null. */
  ghost predicate SaysText(v: Value, key: string, text: Option<string>) {
    match text
    case None => Get(v, key) == None || Get(v, key) == Some(Null)
    case Some(s) => Get(v, key) == Some(Str(s))
  }

  ghost predicate SaysFlag(v: Value, key: string, flag: Option<bool>) {
    match flag
    case None => Get(v, key) == None || Get(v, key) == Some(Null)
    case Some(b) => Get(v, key) == Some(Bool(b))
  }

  ghost predicate AreTexts(items: seq<Value>, texts: seq<string>) {
    |items| == |texts| && forall i :: 0 <= i < |items| ==> items[i] == Str(texts[i])
  }

  /** A missing list is an empty one. */
  ghost predicate SaysList(v: Value, key: string, texts: seq<string>) {
    match Get(v, key)
    case Some(Arr(items)) => AreTexts(items, texts)
    case Some(Null) => texts == []
    case None => texts == []
    case _ => false
  }

  ghost predicate SaysTable(v: Value, key: string, table: Option<map<string, string>>) {
    match Get(v, key)
    case Some(Obj(fields)) =>
      table.Some? && fields.Keys == table.value.Keys && forall k :: k in fields ==> fields[k] == Str(table.value[k])
    case Some(Null) => table == None
    case None => table == None
    case _ => false
  }

  /** The entry describes the service; its name is that of the entry and not said here. */
  ghost predicate Describes(v: Value, svc: Service) {
    && v.Obj? && Get(v, "command") == Some(Str(svc.command))
    && SaysList(v, "args", svc.args)
    && SaysText(v, "cwd", svc.cwd)
    && SaysText(v, "socket", svc.socket)
    && SaysTable(v, "env", svc.env)
    && SaysFlag(v, "enabled", svc.enabled)
  }

  /** An array of the six values in this order says the same. */
  ghost predicate DescribesInOrder(v: Value, svc: Service) {
    && v.Arr? && |v.items| == 6
    && Describes(Obj(map["command" := v.items[0], "args" := v.items[1], "cwd" := v.items[2], "socket" := v.items[3],
                         "env" := v.items[4], "enabled" := v.items[5]]), svc)
  }

  ghost predicate IsEntryOf(v: Value, svc: Service) {
    Describes(v, svc) || DescribesInOrder(v, svc)
  }

  // ----- reading gives what is said

  lemma TextIsRead(fields: map<string, Value>, key: string, text: Option<string>)
    ensures var f := StringField(At(fields, key));
      SaysText(Obj(fields), key, text) <==> !f.Wrong? && ToOption(f) == text
  {
  }

  lemma FlagIsRead(fields: map<string, Value>, key: string, flag: Option<bool>)
    ensures var f := BoolField(At(fields, key));
      SaysFlag(Obj(fields), key, flag) <==> !f.Wrong? && ToOption(f) == flag
  {
  }

  lemma ListIsRead(fields: map<string, Value>, key: string, texts: seq<string>)
    ensures var f := ListField(At(fields, key));
      SaysList(Obj(fields), key, texts) <==> !f.Wrong? && (if f.Given? then f.value else []) == texts
  {
    match At(fields, key)
    case Arr(items) =>
      if AreTexts(items, texts) { assert StringsOf(items) == texts; }
    case _ =>
  }

  lemma TableIsRead(fields: map<string, Value>, key: string, table: Option<map<string, string>>)
    ensures var f := MapField(At(fields, key));
      SaysTable(Obj(fields), key, table) <==> !f.Wrong? && ToOption(f) == table
  {
    match At(fields, key)
    case Obj(members) =>
      if table.Some? && SaysTable(Obj(fields), key, table) { assert TextsOf(members) == table.value; }
    case _ =>
  }

  lemma FieldsAreRead(name: string, fields: map<string, Value>, svc: Service)
    ensures ParseServer(name, Obj(fields)) == Some(svc) <==> svc.name == name && Describes(Obj(fields), svc)
  {
    TextIsRead(fields, "command", Some(svc.command));
    ListIsRead(fields, "args", svc.args);
    TextIsRead(fields, "cwd", svc.cwd);
    TextIsRead(fields, "socket", svc.socket);
    TableIsRead(fields, "env", svc.env);
    FlagIsRead(fields, "enabled", svc.enabled);
    var v := Obj(fields);
    assert Describes(v, svc) <==>
      SaysText(v, "command", Some(svc.command)) && SaysList(v, "args", svc.args) && SaysText(v, "cwd", svc.cwd) &&
      SaysText(v, "socket", svc.socket) && SaysTable(v, "env", svc.env) && SaysFlag(v, "enabled", svc.enabled);
  }

  /** Exactly the services that an entry describes are read from it: every one that is written
      down is read back, and nothing else is ever read. */
  lemma ParsesIff(name: string, v: Value, svc: Service)
    ensures ParseServer(name, v) == Some(svc) <==> svc.name == name && IsEntryOf(v, svc)
  {
    DescribedIsObject(v, svc);
    hide Describes;
    match v
    case Obj(fields) => FieldsAreRead(name, fields, svc);
    case Arr(items) =>
      if |items| == 6 {
        FieldsAreRead(name, map["command" := items[0], "args" := items[1], "cwd" := items[2], "socket" := items[3],
                                "env" := items[4], "enabled" := items[5]], svc);
      }
    case _ =>
  }

  lemma DescribedIsObject(v: Value, svc: Service)
    ensures Describes(v, svc) ==> v.Obj?
  {
  }
}
