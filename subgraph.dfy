/** The query decomposer: renders the nested selection of one field of a GraphQL
    query as a standalone query string for the subgraph that owns the field. */
module Subgraph {
  import opened Wrappers

  /** An argument of a field, with its value kept as source text. */
  datatype Argument = Argument(name: string, value: string)

  /** One item of a GraphQL selection set, as `graphql_parser` parses it. */
  datatype Selection =
    | Field(alias: Option<string>, name: string, arguments: seq<Argument>,
            directives: seq<string>, selectionSet: seq<Selection>)
    | FragmentSpread(fragmentName: string, directives: seq<string>)
    | InlineFragment(typeCondition: Option<string>, directives: seq<string>,
                     selectionSet: seq<Selection>)

  /** `process_selection_set`: the items' renderings in order, joined by one space. */
  function ProcessSelectionSet(items: seq<Selection>): (r: string)
    decreases items
    ensures items == [] ==> r == ""
    ensures |items| == 1 ==> r == ProcessFieldNode(items[0])
    ensures |r| >= |items| - 1
  {
    if |items| == 0 then ""
    else if |items| == 1 then ProcessFieldNode(items[0])
    else ProcessFieldNode(items[0]) + " " + ProcessSelectionSet(items[1..])
  }

  /** `process_field_node`: a field with sub-selections renders as `name { ... }`,
      a leaf field as its bare name, and a fragment as nothing at all. */
  function ProcessFieldNode(s: Selection): (r: string)
    decreases s
    ensures s.Field? && s.selectionSet == [] ==> r == s.name
    ensures !s.Field? ==> r == ""
  {
    match s
    case Field(_, name, _, _, children) =>
      if children != [] then name + " { " + ProcessSelectionSet(children) + " }"
      else name
    case _ => ""
  }

  /** `process_context`: the whole subquery, with the owning entity's id bound as the
      `id` argument of `queryName`. */
  function ProcessContext(id: string, items: seq<Selection>, queryName: string): (r: string)
    ensures |r| == |queryName| + |id| + |ProcessSelectionSet(items)| + 17
    ensures r[..2 + |queryName|] == "{ " + queryName
    ensures r[|r| - 4..] == " } }"
  {
    "{ " + queryName + "(id: \"" + id + "\") { " + ProcessSelectionSet(items) + " } }"
  }

  // ---------------------------------------------------------------------------
  // Rendering structure

  /** A field with a non-empty selection renders as its name, then its children's
      rendering inside braces with one space inside each brace. */
  lemma FieldWithChildren(s: Selection)
    requires s.Field? && s.selectionSet != []
    ensures ProcessFieldNode(s) == s.name + " { " + ProcessSelectionSet(s.selectionSet) + " }"
  {
  }

  /** Joining is associative: the rendering of a concatenation of two non-empty
      selection sets is the two renderings separated by exactly one space. */
  lemma {:induction false} ProcessSelectionSetAppend(a: seq<Selection>, b: seq<Selection>)
    requires a != [] && b != []
    ensures ProcessSelectionSet(a + b) == ProcessSelectionSet(a) + " " + ProcessSelectionSet(b)
    decreases |a|
  {
    if |a| == 1 {
      assert (a + b)[0] == a[0];
      assert (a + b)[1..] == b;
    } else {
      assert (a + b)[0] == a[0];
      assert (a + b)[1..] == a[1..] + b;
      ProcessSelectionSetAppend(a[1..], b);
    }
  }

  /** A selection set of one more item renders as before, one space, and the new item:
      the rendering is the items' renderings in input order. */
  lemma ProcessSelectionSetSnoc(items: seq<Selection>, s: Selection)
    requires items != []
    ensures ProcessSelectionSet(items + [s]) == ProcessSelectionSet(items) + " " + ProcessFieldNode(s)
  {
    ProcessSelectionSetAppend(items, [s]);
  }

  /** Fragments are not expanded: a spread between two fields leaves two spaces. */
  lemma FragmentLeavesDoubleSpace(a: string, b: string, fragment: string)
    ensures ProcessSelectionSet([Field(None, a, [], [], []), FragmentSpread(fragment, []),
                                 Field(None, b, [], [], [])]) == a + "  " + b
  {
    var items := [Field(None, a, [], [], []), FragmentSpread(fragment, []), Field(None, b, [], [], [])];
    assert items[1..][1..] == [Field(None, b, [], [], [])];
    assert ProcessSelectionSet(items[1..]) == "" + " " + b;
  }

  // ---------------------------------------------------------------------------
  // Only names and nesting matter

  /** What the renderer can see of a selection: field names and nesting. Aliases,
      arguments, directives and fragment contents are erased. */
  datatype Shape = Node(name: string, children: seq<Shape>) | Blank

  function ShapeOf(s: Selection): Shape
    decreases s
  {
    match s
    case Field(_, name, _, _, children) => Node(name, ShapesOf(children))
    case _ => Blank
  }

  function ShapesOf(items: seq<Selection>): (r: seq<Shape>)
    decreases items
    ensures |r| == |items|
  {
    if items == [] then [] else [ShapeOf(items[0])] + ShapesOf(items[1..])
  }

  /** Two selection sets with the same field names and nesting render identically,
      whatever their aliases, arguments, directives or fragment contents. */
  lemma {:induction false} SelectionSetDependsOnlyOnShape(a: seq<Selection>, b: seq<Selection>)
    requires ShapesOf(a) == ShapesOf(b)
    ensures ProcessSelectionSet(a) == ProcessSelectionSet(b)
    decreases a
  {
    if a != [] {
      assert ShapesOf(a)[0] == ShapesOf(b)[0];
      FieldNodeDependsOnlyOnShape(a[0], b[0]);
      if |a| > 1 {
        assert ShapesOf(a)[1..] == ShapesOf(a[1..]);
        assert ShapesOf(b)[1..] == ShapesOf(b[1..]);
        SelectionSetDependsOnlyOnShape(a[1..], b[1..]);
      }
    }
  }

  lemma {:induction false} FieldNodeDependsOnlyOnShape(s: Selection, t: Selection)
    requires ShapeOf(s) == ShapeOf(t)
    ensures ProcessFieldNode(s) == ProcessFieldNode(t)
    decreases s
  {
    if s.Field? {
      assert t.Field?;
      if s.selectionSet != [] {
        SelectionSetDependsOnlyOnShape(s.selectionSet, t.selectionSet);
      } else {
        assert |ShapesOf(t.selectionSet)| == 0;
      }
    }
  }

  // ---------------------------------------------------------------------------
  // The subquery wrapper

  /** The worked example: `{a, b{c}}` against id `x` and query name `q`. */
  lemma ProcessContextExample()
    ensures ProcessContext("x", [Field(None, "a", [], [], []),
                                 Field(None, "b", [], [], [Field(None, "c", [], [], [])])], "q")
            == "{ q(id: \"x\") { a b { c } } }"
  {
  }

  /** The id and the query name are spliced in verbatim, without escaping: the query
      name starts at offset 2, and the id right after `(id: "` (six characters). */
  lemma ProcessContextSplicesVerbatim(id: string, items: seq<Selection>, queryName: string)
    ensures var out := ProcessContext(id, items, queryName);
            && |out| == |queryName| + |id| + |ProcessSelectionSet(items)| + 17
            && out[2..2 + |queryName|] == queryName
            && out[|queryName| + 8..|queryName| + 8 + |id|] == id
            && out[|queryName| + 8 + |id|..|queryName| + 13 + |id|] == "\") { "
            && out[|out| - 4..] == " } }"
  {
    var out := ProcessContext(id, items, queryName);
    var q, sel := queryName, ProcessSelectionSet(items);
    assert out == "{ " + q + "(id: \"" + id + "\") { " + sel + " } }";
    assert out[2..2 + |q|] == q;
    assert out[|q| + 8..|q| + 8 + |id|] == id;
  }

  /** An id holding a quote closes the string argument early. */
  lemma ProcessContextDoesNotEscapeQuotes()
    ensures ProcessContext("a\"", [Field(None, "b", [], [], [])], "q") == "{ q(id: \"a\"\") { b } }"
  {
  }

  // ---------------------------------------------------------------------------
  // Brace balance

  function Delta(c: char): int
  {
    if c == '{' then 1 else if c == '}' then -1 else 0
  }

  /** Opening minus closing braces in `s`. */
  function Net(s: string): int
  {
    if s == [] then 0 else Net(s[..|s| - 1]) + Delta(s[|s| - 1])
  }

  /** Every `}` closes an earlier `{`, and every `{` is closed. */
  ghost predicate Balanced(s: string)
  {
    Net(s) == 0 && forall k :: 0 <= k <= |s| ==> Net(s[..k]) >= 0
  }

  predicate BraceFree(s: string)
  {
    forall i :: 0 <= i < |s| ==> s[i] != '{' && s[i] != '}'
  }

  /** All field names in a selection set are free of braces. */
  predicate NamesBraceFree(items: seq<Selection>)
    decreases items
  {
    forall i :: 0 <= i < |items| ==> items[i].Field? ==>
      BraceFree(items[i].name) && NamesBraceFree(items[i].selectionSet)
  }

  lemma {:induction false} NetConcat(a: string, b: string)
    ensures Net(a + b) == Net(a) + Net(b)
    decreases |b|
  {
    if b != [] {
      var b' := b[..|b| - 1];
      assert (a + b)[..|a + b| - 1] == a + b';
      assert (a + b)[|a + b| - 1] == b[|b| - 1];
      NetConcat(a, b');
      assert Net(a + b) == Net(a + b') + Delta(b[|b| - 1]);
    } else {
      assert a + b == a;
    }
  }

  lemma {:induction false} BraceFreeNet(s: string)
    requires BraceFree(s)
    ensures Net(s) == 0
    decreases |s|
  {
    if s != [] {
      BraceFreeNet(s[..|s| - 1]);
    }
  }

  lemma BraceFreeBalanced(s: string)
    requires BraceFree(s)
    ensures Balanced(s)
  {
    BraceFreeNet(s);
    forall k | 0 <= k <= |s| ensures Net(s[..k]) >= 0 {
      BraceFreeNet(s[..k]);
    }
  }

  lemma BalancedConcat(a: string, b: string)
    requires Balanced(a) && Balanced(b)
    ensures Balanced(a + b)
  {
    NetConcat(a, b);
    forall k | 0 <= k <= |a + b| ensures Net((a + b)[..k]) >= 0 {
      if k <= |a| {
        assert (a + b)[..k] == a[..k];
      } else {
        assert (a + b)[..k] == a + b[..k - |a|];
        NetConcat(a, b[..k - |a|]);
      }
    }
  }

  lemma BalancedWrap(x: string)
    requires Balanced(x)
    ensures Balanced("{" + x + "}")
  {
    var w := "{" + x + "}";
    NetConcat("{" + x, "}");
    NetConcat("{", x);
    assert Net("{") == 1;
    assert Net("}") == -1;
    forall k | 0 <= k <= |w| ensures Net(w[..k]) >= 0 {
      if k == 0 {
      } else if k <= |x| + 1 {
        assert w[..k] == "{" + x[..k - 1];
        NetConcat("{", x[..k - 1]);
      } else {
        assert w[..k] == w;
      }
    }
  }

  /** Balanced text wrapped as ` { text } ` after a brace-free prefix stays balanced. */
  lemma BalancedBlock(prefix: string, x: string, suffix: string)
    requires BraceFree(prefix) && BraceFree(suffix) && Balanced(x)
    ensures Balanced(prefix + " { " + x + " }" + suffix)
  {
    BraceFreeBalanced(" ");
    BraceFreeBalanced(prefix);
    BraceFreeBalanced(suffix);
    BalancedConcat(" ", x);
    BalancedConcat(" " + x, " ");
    BalancedWrap(" " + x + " ");
    var block := "{" + (" " + x + " ") + "}";
    BalancedConcat(prefix, " ");
    BalancedConcat(prefix + " ", block);
    BalancedConcat(prefix + " " + block, suffix);
    assert prefix + " { " + x + " }" + suffix == prefix + " " + block + suffix;
  }

  /** With brace-free field names, every rendered selection set is balanced. */
  lemma {:induction false} SelectionSetBalanced(items: seq<Selection>)
    requires NamesBraceFree(items)
    ensures Balanced(ProcessSelectionSet(items))
    decreases items
  {
    if items == [] {
      BraceFreeBalanced("");
    } else {
      FieldNodeBalanced(items[0]);
      if |items| > 1 {
        assert NamesBraceFree(items[1..]) by {
          forall i | 0 <= i < |items[1..]| && items[1..][i].Field?
            ensures BraceFree(items[1..][i].name) && NamesBraceFree(items[1..][i].selectionSet)
          {
            assert items[1..][i] == items[i + 1];
          }
        }
        SelectionSetBalanced(items[1..]);
        BraceFreeBalanced(" ");
        BalancedConcat(ProcessFieldNode(items[0]), " ");
        BalancedConcat(ProcessFieldNode(items[0]) + " ", ProcessSelectionSet(items[1..]));
      }
    }
  }

  lemma {:induction false} FieldNodeBalanced(s: Selection)
    requires s.Field? ==> BraceFree(s.name) && NamesBraceFree(s.selectionSet)
    ensures Balanced(ProcessFieldNode(s))
    decreases s
  {
    if s.Field? && s.selectionSet != [] {
      SelectionSetBalanced(s.selectionSet);
      BalancedBlock(s.name, ProcessSelectionSet(s.selectionSet), "");
      assert s.name + " { " + ProcessSelectionSet(s.selectionSet) + " }" + ""
          == ProcessFieldNode(s);
    } else if s.Field? {
      BraceFreeBalanced(s.name);
    } else {
      BraceFreeBalanced("");
    }
  }

  lemma BraceFreeConcat(a: string, b: string)
    requires BraceFree(a) && BraceFree(b)
    ensures BraceFree(a + b)
  {
    forall i | 0 <= i < |a + b| ensures (a + b)[i] != '{' && (a + b)[i] != '}' {
      if i >= |a| {
        assert (a + b)[i] == b[i - |a|];
      }
    }
  }

  /** The query wrapped by `ProcessContext`: ` { inner { selections } } ` inside braces. */
  lemma ProcessContextLayout(id: string, items: seq<Selection>, queryName: string)
    ensures var mid := queryName + "(id: \"" + id + "\")" + " { " + ProcessSelectionSet(items) + " }" + "";
            ProcessContext(id, items, queryName) == "{" + (" " + mid + " ") + "}"
  {
  }

  /** If no field name, id or query name contains a brace, every `{` of the subquery
      is matched by a later `}` and vice versa. */
  lemma ProcessContextBalanced(id: string, items: seq<Selection>, queryName: string)
    requires BraceFree(id) && BraceFree(queryName) && NamesBraceFree(items)
    ensures Balanced(ProcessContext(id, items, queryName))
  {
    BraceFreeConcat(queryName, "(id: \"");
    BraceFreeConcat(queryName + "(id: \"", id);
    BraceFreeConcat(queryName + "(id: \"" + id, "\")");
    var inner := queryName + "(id: \"" + id + "\")";
    SelectionSetBalanced(items);
    BalancedBlock(inner, ProcessSelectionSet(items), "");
    var mid := inner + " { " + ProcessSelectionSet(items) + " }" + "";
    BraceFreeBalanced(" ");
    BalancedConcat(" ", mid);
    BalancedConcat(" " + mid, " ");
    BalancedWrap(" " + mid + " ");
    ProcessContextLayout(id, items, queryName);
  }
}
