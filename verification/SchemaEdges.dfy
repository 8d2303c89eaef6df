/** What the schema's validators accept, as the edits of one field of an accepted policy that stay accepted. */
module SchemaEdges {
  import opened Options
  import opened Schema

  /** Letters, digits and underscores behind a letter. */
  predicate Word(s: string) {
    |s| > 0 && s[0] in "abcdefghijklmnopqrstuvwxyz"
    && forall i :: 0 <= i < |s| ==> s[i] in "abcdefghijklmnopqrstuvwxyz0123456789_"
  }

  /** The pattern's end anchor lets one newline follow. */
  ghost predicate Named(s: string) {
    Word(s) || exists t :: Word(t) && s == t + "\n"
  }

  /** A dotted name is one whose dots are read as underscores. */
  ghost predicate DottedName(s: string) {
    exists t :: Named(t) && |t| == |s| && forall i :: 0 <= i < |s| ==> t[i] == if s[i] == '.' then '_' else s[i]
  }

  /** The code points `str.isspace` accepts. */
  predicate Blank(c: char) {
    var n := c as int;
    || n in {9, 10, 11, 12, 13, 28, 29, 30, 31, 32, 133, 160, 5760, 8232, 8233, 8239, 8287, 12288}
    || 8192 <= n <= 8202
  }

  predicate Typed(v: Scalar, t: ValueType) {
    match v
    case Int(_) => t == NumberType
    case Float(_) => t == NumberType
    case Text(_) => t == StringType
    case Bool(_) => t == BooleanType
  }

  /** Which operators and shapes of value a type admits; only numbers are checked for their own type. */
  predicate Shaped(op: Operator, value: CondValue, t: ValueType) {
    match t
    case NumberType => op !in {In, NotIn} && value.One? && Typed(value.v, NumberType)
    case StringType => (op in {Eq, Neq} && value.One?) || (op in {In, NotIn} && value.Many?)
    case BooleanType => op == Eq && value.One?
  }

  lemma WordExactly(s: string)
    ensures Snake(s) <==> Word(s)
  {
    assert forall c: char :: c in "abcdefghijklmnopqrstuvwxyz" <==> 'a' <= c <= 'z' by { LettersExactly(); }
    assert forall c: char :: c in "abcdefghijklmnopqrstuvwxyz0123456789_"
                             <==> 'a' <= c <= 'z' || '0' <= c <= '9' || c == '_' by { CharactersExactly(); }
  }

  lemma LettersExactly()
    ensures forall c: char :: c in "abcdefghijklmnopqrstuvwxyz" <==> 'a' <= c <= 'z'
  {
    var s := "abcdefghijklmnopqrstuvwxyz";
    assert forall i :: 0 <= i < 26 ==> s[i] as int == 97 + i;
    forall c: char | 'a' <= c <= 'z' ensures c in s { assert s[c as int - 97] == c; }
  }

  lemma CharactersExactly()
    ensures forall c: char :: c in "abcdefghijklmnopqrstuvwxyz0123456789_"
                              <==> 'a' <= c <= 'z' || '0' <= c <= '9' || c == '_'
  {
    var s := "abcdefghijklmnopqrstuvwxyz0123456789_";
    assert forall i :: 0 <= i < 26 ==> s[i] as int == 97 + i;
    assert forall i :: 26 <= i < 36 ==> s[i] as int == 48 + i - 26;
    assert s[36] == '_';
    forall c: char | 'a' <= c <= 'z' ensures c in s { assert s[c as int - 97] == c; }
    forall c: char | '0' <= c <= '9' ensures c in s { assert s[c as int - 48 + 26] == c; }
  }

  lemma NamedExactly(s: string)
    ensures SnakeCase(s) <==> Named(s)
  {
    hide Snake, Word;
    WordExactly(s);
    if s != "" {
      WordExactly(s[..|s| - 1]);
      assert s[|s| - 1] == '\n' ==> s == s[..|s| - 1] + "\n";
    }
    if exists t :: Word(t) && s == t + "\n" {
      var t :| Word(t) && s == t + "\n";
      assert s[..|s| - 1] == t;
    }
  }

  lemma DottedExactly(s: string)
    ensures SnakeCase(Undotted(s)) <==> DottedName(s)
  {
    hide SnakeCase, Named;
    NamedExactly(Undotted(s));
    if DottedName(s) {
      var t :| Named(t) && |t| == |s| && forall i :: 0 <= i < |s| ==> t[i] == if s[i] == '.' then '_' else s[i];
      assert t == Undotted(s);
    }
  }

  lemma BlankExactly(c: char)
    ensures IsSpace(c) <==> Blank(c)
  {
  }

  lemma ShapedExactly(c: Condition)
    ensures ValidCondition(c) <==> Named(c.field) && Shaped(c.op, c.value, c.valueType)
  {
    hide SnakeCase, Named;
    NamedExactly(c.field);
    match c.op {
      case Gt =>
      case Gte =>
      case Lt =>
      case Lte =>
      case Eq =>
      case Neq =>
      case In =>
      case NotIn =>
    }
  }

  lemma FactExactly(f: FactSpec)
    ensures ValidFact(f) <==> Named(f.name) && (f.default.Some? ==> Typed(f.default.value, f.valueType))
  {
    hide SnakeCase, Named;
    NamedExactly(f.name);
  }

  /** The bounds, the sign-off, the evidence, the overrides and the approver of an accepted policy. */
  lemma PolicyEdits(p: Policy, n: int, ack: bool, ids: seq<string>, role: Option<string>)
    requires ValidPolicy(p)
    ensures ValidPolicy(p.(priority := n)) <==> 0 <= n <= 1000
    ensures ValidPolicy(p.(unconditionalAck := ack)) <==> ack || p.conditions != []
    ensures ValidPolicy(p.(conditions := [], unconditionalAck := ack)) <==> ack
    ensures !ValidPolicy(p.(evidence := []))
    ensures ValidPolicy(p.(overrides := ids)) <==> p.id !in ids
    ensures ValidPolicy(p.(authority := Authority(true, role))) <==> role.Some? && role.value != ""
    ensures ValidPolicy(p.(authority := Authority(false, role)))
  {
    hide SnakeCase, ValidCondition, ValidEvidence;
  }

  lemma CitationExactly(e: Evidence)
    ensures ValidEvidence(e) <==>
              0 <= e.spanStart <= e.spanEnd && exists i :: 0 <= i < |e.excerpt| && !Blank(e.excerpt[i])
  {
    forall i | 0 <= i < |e.excerpt| ensures IsSpace(e.excerpt[i]) <==> Blank(e.excerpt[i]) {
      BlankExactly(e.excerpt[i]);
    }
    hide IsSpace, Blank;
    if !IsBlank(e.excerpt) {
      var i :| 0 <= i < |e.excerpt| && !IsSpace(e.excerpt[i]);
      assert !Blank(e.excerpt[i]);
    }
  }

  /** One citation in place of the evidence, one condition in place of the conditions. */
  lemma PartEdits(p: Policy, e: Evidence, c: Condition)
    requires ValidPolicy(p)
    ensures ValidPolicy(p.(evidence := [e])) <==>
              0 <= e.spanStart <= e.spanEnd && exists i :: 0 <= i < |e.excerpt| && !Blank(e.excerpt[i])
    ensures ValidPolicy(p.(conditions := [c])) <==> Named(c.field) && Shaped(c.op, c.value, c.valueType)
  {
    hide SnakeCase, Named, Shaped, ValidCondition, ValidEvidence, Blank;
    ShapedExactly(c);
    CitationExactly(e);
    assert [e][0] == e && [c][0] == c;
  }

  /** The names of an accepted policy. */
  lemma NameEdits(p: Policy, name: string)
    requires ValidPolicy(p)
    ensures ValidPolicy(p.(effect := p.effect.(action := name))) <==> Named(name)
    ensures ValidPolicy(p.(workflow := name)) <==> DottedName(name)
    ensures ValidPolicy(p.(id := name)) <==> DottedName(name) && name !in p.overrides
  {
    hide SnakeCase, Named, Undotted, DottedName, ValidCondition, ValidEvidence;
    NamedExactly(name);
    DottedExactly(name);
  }

  /** A workflow spec is accepted when each fact is and no two share a name. */
  lemma WorkflowExactly(w: WorkflowSpec)
    ensures ValidWorkflow(w) <==>
              && (forall i :: 0 <= i < |w.facts| ==>
                    Named(w.facts[i].name)
                    && (w.facts[i].default.Some? ==> Typed(w.facts[i].default.value, w.facts[i].valueType)))
              && forall i, j :: 0 <= i < j < |w.facts| ==> w.facts[i].name != w.facts[j].name
  {
    hide SnakeCase, Named, Typed;
    forall i | 0 <= i < |w.facts|
      ensures ValidFact(w.facts[i]) <==>
                Named(w.facts[i].name)
                && (w.facts[i].default.Some? ==> Typed(w.facts[i].default.value, w.facts[i].valueType))
    {
      FactExactly(w.facts[i]);
    }
    hide ValidFact;
  }
}
