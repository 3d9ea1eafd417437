/** The browser build's compose helper, after
    `rune-wasm/src/compose/mod.rs`: start order and validation over a
    compose document that has already been decoded from JSON. JSON decoding
    and encoding are not modelled; a document that does not decode is an
    input carrying the decoder's message. */
module WasmCompose {
  import opened Common
  import opened DependencyGraph

  datatype WasmBuild = WasmBuild(context: string, dockerfile: Option<string>)

  /** The fields of a service that ordering and validation read. */
  datatype WasmService = WasmService(
    name: string,
    image: Option<string>,
    build: Option<WasmBuild>,
    dependsOn: Option<seq<string>>)

  datatype ParsedCompose = ParsedCompose(version: Option<string>, services: map<string, WasmService>)

  /** The outcome of decoding the JSON text. */
  datatype Decoded = Decoded(compose: ParsedCompose) | DecodeError(message: string)

  /** What `parse` returns: the document, or an error object. */
  datatype ParseReply = Document(compose: ParsedCompose) | ParseError(error: string)

  /** What `getStartOrder` returns: the order, or an error object. */
  datatype OrderReply = Order(names: seq<string>) | OrderError(error: string)

  /** What `validate` returns. */
  datatype ValidationReply = ValidationReply(valid: bool, errors: seq<string>, warnings: seq<string>)

  /** `parse`: a decoded document is handed back; a decoding failure
      becomes an error object carrying the decoder's message. */
  function Parse(input: Decoded): (r: ParseReply)
    ensures r.Document? <==> input.Decoded?
    ensures r.Document? ==> r.compose == input.compose
    ensures r.ParseError? ==> r.error == input.message
  {
    match input
    case Decoded(c) => Document(c)
    case DecodeError(m) => ParseError(m)
  }

  function DepsOf(s: WasmService): seq<string>
  {
    if s.dependsOn.Some? then s.dependsOn.value else []
  }

  /** The dependency graph of the document's services. */
  function WasmGraph(services: map<string, WasmService>): (g: Graph)
    ensures g.Keys == services.Keys
    ensures forall n :: n in services ==> g[n] == DepsOf(services[n])
  {
    map n | n in services :: DepsOf(services[n])
  }

  /** The names visited so far are those placed in `order` and those whose
      visit is in progress, and no name is placed twice. */
  predicate Marked(visited: set<string>, order: seq<string>, stack: seq<string>)
  {
    visited == Elems(order) + Elems(stack) && Elems(order) !! Elems(stack) && Distinct(order)
  }

  /** Finishing the innermost visit moves its name from the stack to the
      end of the order. */
  lemma MarkedFinish(visited: set<string>, order: seq<string>, stack: seq<string>, name: string)
    requires Marked(visited, order, stack + [name]) && name !in stack
    ensures Marked(visited, order + [name], stack)
  {
    ElemsAppend(stack, name);
    AppendDistinct(order, name);
  }

  /** Starting a visit pushes the name onto the stack. */
  lemma MarkedStart(visited: set<string>, order: seq<string>, stack: seq<string>, name: string)
    requires Marked(visited, order, stack) && name !in visited
    ensures Marked(visited + {name}, order, stack + [name])
  {
    ElemsAppend(stack, name);
  }

  /** Meeting a visited name: with no cycle it must already be placed,
      since a name still in progress would close a cycle. */
  lemma AlreadyVisited(g: Graph, name: string, visited: set<string>, order: seq<string>, stack: seq<string>)
    requires Marked(visited, order, stack) && name in visited
    requires Walk(g, stack) && (|stack| > 0 ==> Edge(g, stack[|stack| - 1], name))
    ensures Acyclic(g) ==> name in order
  {
    if Acyclic(g) && name !in order {
      assert name in Elems(stack);
      var j :| 0 <= j < |stack| && stack[j] == name;
      CycleFromWalk(g, stack, j, name);
    }
  }

  /** The end of `visit`: once the dependencies are visited, the name is
      placed after them. */
  lemma FinishVisit(g: Graph, name: string, deps: seq<string>, visited: set<string>, order: seq<string>,
                    stack: seq<string>, acyclic: bool, v: set<string>, o: seq<string>)
    requires deps == (if name in g then g[name] else []) && name !in visited && Marked(visited, order, stack)
    requires Marked(v, o, stack + [name]) && visited + {name} <= v <= Names(g) && order <= o
    requires acyclic ==> DepsBefore(g, o) && forall k :: 0 <= k < |deps| ==> deps[k] in o
    ensures Marked(v, o + [name], stack)
    ensures visited <= v <= Names(g) && name in v && order <= o + [name]
    ensures acyclic ==> DepsBefore(g, o + [name]) && name in o + [name]
  {
    assert name in Elems(stack + [name]);
    ElemsAppend(stack, name);
    assert name !in Elems(stack);
    MarkedFinish(v, o, stack, name);
    if acyclic {
      assert name !in Elems(o);
      PlaceAfterDeps(g, o, name, deps);
    }
  }

  /** `visit`: a name is marked visited before its dependencies are
      visited, and appended once they are. Meeting a visited name returns at
      once, so a cycle ends the walk without an error. `stack` (proof only)
      lists the names whose visit is in progress, each depending on the
      next; the visited names are those in `order` and those on the stack.
      `acyclic` (proof only) records that the graph has no cycle. */
  method Visit(g: Graph, name: string, visited: set<string>, order: seq<string>,
               ghost stack: seq<string>, ghost acyclic: bool)
    returns (visited': set<string>, order': seq<string>)
    requires name in Names(g) && visited <= Names(g)
    requires Marked(visited, order, stack)
    requires Walk(g, stack) && (|stack| > 0 ==> Edge(g, stack[|stack| - 1], name))
    requires acyclic ==> Acyclic(g) && DepsBefore(g, order)
    decreases |Names(g) - visited|, 1
    ensures Marked(visited', order', stack)
    ensures visited <= visited' <= Names(g) && name in visited' && order <= order'
    ensures acyclic ==> DepsBefore(g, order') && name in order'
  {
    if name in visited {
      AlreadyVisited(g, name, visited, order, stack);
      return visited, order;
    }
    var inner := visited + {name};
    StartVisit(g, name, visited, order, stack);
    var deps := if name in g then g[name] else [];
    var v, o := VisitDeps(g, name, deps, inner, order, stack + [name], acyclic);
    FinishVisit(g, name, deps, visited, order, stack, acyclic, v, o);
    visited', order' := v, o + [name];
  }

  /** Marking one more name leaves one name fewer to visit. */
  lemma RemoveOneCard(names: set<string>, visited: set<string>, name: string)
    requires name in names && name !in visited
    ensures |names - (visited + {name})| + 1 == |names - visited|
  {
    assert names - visited == (names - (visited + {name})) + {name};
  }

  /** The start of `visit` on a name not yet visited: it is marked and
      pushed on the stack, which leaves one name fewer to visit. */
  lemma StartVisit(g: Graph, name: string, visited: set<string>, order: seq<string>, stack: seq<string>)
    requires name in Names(g) && name !in visited && visited <= Names(g)
    requires Marked(visited, order, stack)
    requires Walk(g, stack) && (|stack| > 0 ==> Edge(g, stack[|stack| - 1], name))
    ensures |Names(g) - (visited + {name})| + 1 == |Names(g) - visited|
    ensures visited + {name} <= Names(g)
    ensures Walk(g, stack + [name]) && Marked(visited + {name}, order, stack + [name])
  {
    RemoveOneCard(Names(g), visited, name);
    WalkExtend(g, stack, name);
    MarkedStart(visited, order, stack, name);
  }

  /** One step of the loop over a service's dependencies. */
  lemma VisitDepsStep(g: Graph, deps: seq<string>, i: nat, acyclic: bool, before: seq<string>, o: seq<string>)
    requires i < |deps| && before <= o
    requires acyclic ==> forall k :: 0 <= k < i ==> deps[k] in before
    requires acyclic ==> deps[i] in o
    ensures acyclic ==> forall k :: 0 <= k < i + 1 ==> deps[k] in o
  {
    PrefixElems(before, o);
    if acyclic {
      forall k | 0 <= k < i + 1 ensures deps[k] in o {
        if k < i {
          assert deps[k] in Elems(before);
        }
      }
    }
  }

  /** The loop of `visit` over one service's dependencies. */
  method VisitDeps(g: Graph, name: string, deps: seq<string>, visited: set<string>, order: seq<string>,
                   ghost stack: seq<string>, ghost acyclic: bool)
    returns (v: set<string>, o: seq<string>)
    requires deps == (if name in g then g[name] else [])
    requires Walk(g, stack) && |stack| > 0 && stack[|stack| - 1] == name
    requires Marked(visited, order, stack)
    requires visited <= Names(g)
    requires acyclic ==> Acyclic(g) && DepsBefore(g, order)
    decreases |Names(g) - visited| + 1, 0
    ensures Marked(v, o, stack)
    ensures visited <= v <= Names(g) && order <= o
    ensures acyclic ==> DepsBefore(g, o) && forall k :: 0 <= k < |deps| ==> deps[k] in o
  {
    v, o := visited, order;
    var i := 0;
    while i < |deps|
      invariant 0 <= i <= |deps|
      invariant Marked(v, o, stack)
      invariant visited <= v <= Names(g) && order <= o
      invariant acyclic ==> DepsBefore(g, o) && forall k :: 0 <= k < i ==> deps[k] in o
    {
      assert Edge(g, name, deps[i]);
      DependencyIsName(g, name, deps[i]);
      SubsetCard(Names(g) - v, Names(g) - visited);
      ghost var before := o;
      v, o := Visit(g, deps[i], v, o, stack, acyclic);
      VisitDepsStep(g, deps, i, acyclic, before, o);
      i := i + 1;
    }
  }

  /** `getStartOrder`: visits every service in map order. Every service is
      listed once, together with the undefined names they depend on; with
      no dependency cycle each name comes after everything it depends on.
      A cycle gives an order, not an error; only a decoding failure gives
      an error object. */
  method GetStartOrder(input: Decoded) returns (r: OrderReply)
    ensures r.OrderError? <==> input.DecodeError?
    ensures r.OrderError? ==> r.error == input.message
    ensures r.Order? ==> Distinct(r.names) && (forall s :: s in input.compose.services ==> s in r.names)
    ensures r.Order? ==> Elems(r.names) <= Names(WasmGraph(input.compose.services))
    ensures r.Order? && Acyclic(WasmGraph(input.compose.services)) ==> DepsBefore(WasmGraph(input.compose.services), r.names)
  {
    if input.DecodeError? {
      return OrderError(input.message);
    }
    var g := WasmGraph(input.compose.services);
    var keys := Enumerate(input.compose.services.Keys);
    ghost var acyclic := Acyclic(g);
    var visited: set<string> := {};
    var order: seq<string> := [];
    var i := 0;
    while i < |keys|
      invariant 0 <= i <= |keys|
      invariant Marked(visited, order, []) && visited <= Names(g)
      invariant acyclic ==> DepsBefore(g, order)
      invariant forall k :: 0 <= k < i ==> keys[k] in visited
    {
      assert keys[i] in Elems(keys);
      visited, order := Visit(g, keys[i], visited, order, [], acyclic);
      i := i + 1;
    }
    forall s | s in input.compose.services ensures s in order {
      assert s in Elems(keys);
      var k :| 0 <= k < |keys| && keys[k] == s;
      assert s in visited;
    }
    r := Order(order);
  }

  function MissingImageMessage(name: string): string
  {
    "Service '" + name + "' has no image or build"
  }

  function UnknownServiceMessage(name: string, dep: string): string
  {
    "Service '" + name + "' depends on unknown service '" + dep + "'"
  }

  /** The errors one service draws, in the order `validate` reports them. */
  function ServiceErrors(services: map<string, WasmService>, name: string, s: WasmService): seq<string>
  {
    (if s.image.None? && s.build.None? then [MissingImageMessage(name)] else [])
      + UnknownDeps(services, name, DepsOf(s))
  }

  /** One error for each listed dependency that is not a service. */
  function UnknownDeps(services: map<string, WasmService>, name: string, deps: seq<string>): (r: seq<string>)
    ensures |r| <= |deps|
  {
    if deps == [] then []
    else
      var last := deps[|deps| - 1];
      var rest := UnknownDeps(services, name, deps[..|deps| - 1]);
      if last in services then rest else rest + [UnknownServiceMessage(name, last)]
  }

  /** An error is reported for exactly the dependencies that are not services. */
  lemma {:induction false} UnknownDepsMembers(services: map<string, WasmService>, name: string, deps: seq<string>, e: string)
    ensures e in UnknownDeps(services, name, deps) <==> exists d :: d in deps && d !in services && e == UnknownServiceMessage(name, d)
  {
    if deps != [] {
      var init := deps[..|deps| - 1];
      UnknownDepsMembers(services, name, init, e);
      assert forall d :: d in deps <==> d in init || d == deps[|deps| - 1];
    }
  }

  /** A service `validate` objects to. */
  predicate ServiceInvalid(services: map<string, WasmService>, s: WasmService)
  {
    (s.image.None? && s.build.None?) || exists d :: d in DepsOf(s) && d !in services
  }

  lemma ServiceErrorsEmpty(services: map<string, WasmService>, name: string, s: WasmService)
    ensures ServiceErrors(services, name, s) == [] <==> !ServiceInvalid(services, s)
  {
    var u := UnknownDeps(services, name, DepsOf(s));
    if exists d :: d in DepsOf(s) && d !in services {
      var d :| d in DepsOf(s) && d !in services;
      UnknownDepsMembers(services, name, DepsOf(s), UnknownServiceMessage(name, d));
    }
    if u != [] {
      UnknownDepsMembers(services, name, DepsOf(s), u[0]);
    }
  }

  /** The errors of the services in `names`, in that order. */
  function ErrorsOf(services: map<string, WasmService>, names: seq<string>): seq<string>
  {
    if names == [] then []
    else
      var last := names[|names| - 1];
      ErrorsOf(services, names[..|names| - 1]) + (if last in services then ServiceErrors(services, last, services[last]) else [])
  }

  lemma {:induction false} ErrorsOfMembers(services: map<string, WasmService>, names: seq<string>, e: string)
    ensures e in ErrorsOf(services, names) <==> exists n :: n in names && n in services && e in ServiceErrors(services, n, services[n])
  {
    if names != [] {
      var init := names[..|names| - 1];
      ErrorsOfMembers(services, init, e);
      assert forall n :: n in names <==> n in init || n == names[|names| - 1];
    }
  }

  lemma {:induction false} ErrorsOfEmpty(services: map<string, WasmService>, names: seq<string>)
    ensures ErrorsOf(services, names) == [] <==> forall n :: n in names && n in services ==> !ServiceInvalid(services, services[n])
  {
    if names != [] {
      var init := names[..|names| - 1];
      var last := names[|names| - 1];
      ErrorsOfEmpty(services, init);
      if last in services {
        ServiceErrorsEmpty(services, last, services[last]);
      }
      assert forall n :: n in names <==> n in init || n == last;
    }
  }

  lemma UnknownDepsSnoc(services: map<string, WasmService>, name: string, deps: seq<string>, j: nat)
    requires j < |deps|
    ensures UnknownDeps(services, name, deps[..j + 1]) == UnknownDeps(services, name, deps[..j])
      + (if deps[j] in services then [] else [UnknownServiceMessage(name, deps[j])])
  {
    assert deps[..j + 1][..j] == deps[..j];
  }

  lemma ErrorsOfSnoc(services: map<string, WasmService>, names: seq<string>, i: nat)
    requires i < |names| && names[i] in services
    ensures ErrorsOf(services, names[..i + 1]) == ErrorsOf(services, names[..i]) + ServiceErrors(services, names[i], services[names[i]])
  {
    assert names[..i + 1][..i] == names[..i];
  }

  /** The inner loop of `validate`: one error pushed for each dependency
      that is not a service. */
  method PushUnknownDeps(services: map<string, WasmService>, name: string, deps: seq<string>, errors: seq<string>)
    returns (errors': seq<string>)
    ensures errors' == errors + UnknownDeps(services, name, deps)
  {
    errors' := errors;
    var j := 0;
    while j < |deps|
      invariant 0 <= j <= |deps|
      invariant errors' == errors + UnknownDeps(services, name, deps[..j])
    {
      UnknownDepsSnoc(services, name, deps, j);
      if deps[j] !in services {
        var e := UnknownServiceMessage(name, deps[j]);
        assert (errors + UnknownDeps(services, name, deps[..j])) + [e] == errors + (UnknownDeps(services, name, deps[..j]) + [e]);
        errors' := errors' + [e];
      }
      j := j + 1;
    }
    assert deps[..j] == deps;
  }

  /** The errors gathered over every service, in any order, are exactly
      the errors the services draw. */
  lemma ValidateEnd(services: map<string, WasmService>, names: seq<string>, errors: seq<string>)
    requires Elems(names) == services.Keys && errors == ErrorsOf(services, names)
    ensures errors == [] <==> forall n :: n in services ==> !ServiceInvalid(services, services[n])
    ensures forall e :: e in errors <==> exists n :: n in services && e in ServiceErrors(services, n, services[n])
  {
    forall n ensures n in names <==> n in services {
      assert n in names <==> n in Elems(names);
    }
    ErrorsOfEmpty(services, names);
    forall e ensures e in errors <==> exists n :: n in services && e in ServiceErrors(services, n, services[n]) {
      ErrorsOfMembers(services, names, e);
    }
  }

  /** The loop of `validate` over the services, in map order. */
  method CheckServices(services: map<string, WasmService>) returns (errors: seq<string>)
    ensures errors == [] <==> forall n :: n in services ==> !ServiceInvalid(services, services[n])
    ensures forall e :: e in errors <==> exists n :: n in services && e in ServiceErrors(services, n, services[n])
  {
    var names := Enumerate(services.Keys);
    errors := [];
    var i := 0;
    while i < |names|
      invariant 0 <= i <= |names|
      invariant errors == ErrorsOf(services, names[..i])
    {
      var name := names[i];
      assert name in Elems(names);
      var service := services[name];
      ghost var start := errors;
      ghost var head: seq<string> := if service.image.None? && service.build.None? then [MissingImageMessage(name)] else [];
      if service.image.None? && service.build.None? {
        errors := errors + [MissingImageMessage(name)];
      }
      assert errors == start + head;
      ghost var tail := UnknownDeps(services, name, DepsOf(service));
      errors := PushUnknownDeps(services, name, DepsOf(service), errors);
      assert ServiceErrors(services, name, service) == head + tail;
      ConcatAssoc(start, head, tail);
      ErrorsOfSnoc(services, names, i);
      i := i + 1;
    }
    assert names[..i] == names;
    ValidateEnd(services, names, errors);
  }

  /** `validate`: every service is checked and every problem reported; the
      document is valid exactly when there is no error. A decoding failure
      is the only error then. No warning is ever produced. */
  method Validate(input: Decoded) returns (r: ValidationReply)
    ensures r.valid <==> r.errors == []
    ensures r.warnings == []
    ensures input.DecodeError? ==> r.errors == [input.message]
    ensures input.Decoded? ==> (r.valid <==> forall n :: n in input.compose.services ==>
      !ServiceInvalid(input.compose.services, input.compose.services[n]))
    ensures input.Decoded? ==> forall e :: e in r.errors <==>
      (exists n :: n in input.compose.services && e in ServiceErrors(input.compose.services, n, input.compose.services[n]))
  {
    if input.DecodeError? {
      return ValidationReply(false, [input.message], []);
    }
    var errors := CheckServices(input.compose.services);
    r := ValidationReply(errors == [], errors, []);
  }
}
