/** The risk classifier behind NIVEL_RIESGO: every account gets exactly one
    of `+ALTA`, `ALTA`, `MEDIA`, `BAJA` from its priority text, its
    contactability text and its raw REC. PLANILLAS cell. */
module Risk {
  import opened Wrappers
  import opened Text
  import opened Records

  datatype Level = Critical | High | Medium | Low {
    /** The label the dashboard shows and groups by. */
    function Name(): string {
      match this
      case Critical => "+ALTA"
      case High => "ALTA"
      case Medium => "MEDIA"
      case Low => "BAJA"
    }
  }

  /** Different levels have different labels, so grouping by label is grouping by level. */
  lemma NameInjective(l: Level, m: Level)
    ensures l.Name() == m.Name() <==> l == m
  {
    if l != m {
      assert l.Name()[0] != m.Name()[0] || |l.Name()| != |m.Name()|;
    }
  }

  /** The priority prefixes of the `MEDIA` rule, in the order the source lists them. */
  const MediumPrefixes: seq<string> := ["12", "11", "10", "09", "08", "07", "06", "05"]

  /** `PRIORIDAD.astype(str).str.startswith('13')`. */
  predicate TopPriority(a: Account) {
    StartsWith(AsText(a.priority), "13")
  }

  /** `PRIORIDAD.astype(str).str.startswith(('12', '11', ..., '05'))`. */
  predicate MidPriority(a: Account) {
    exists i :: 0 <= i < |MediumPrefixes| && StartsWith(AsText(a.priority), MediumPrefixes[i])
  }

  /** `CONTACTABILIDAD.astype(str).str.strip().str.lower() == 'contacto directo'`. */
  predicate DirectContact(a: Account) {
    Lower(Strip(AsText(a.contact))) == "contacto directo"
  }

  /** `isna() | == 0 | == ''` on the raw REC. PLANILLAS cell. */
  predicate Unpaid(c: Cell) {
    c.Blank? || c == Num(0.0) || c == Text("")
  }

  /** `cond_critico`. */
  predicate IsCritical(a: Account) {
    TopPriority(a) && DirectContact(a) && Unpaid(a.recPlanillas)
  }

  /** The label as the source computes it: `BAJA` first, then each `.loc`
      assignment in turn; `reassign` adds the final unconditional `MEDIA`
      assignment of the source. */
  function Assigned(a: Account, reassign: bool): Level {
    var critical := IsCritical(a);
    var high := TopPriority(a) && !critical;
    var medium := MidPriority(a);
    var l0 := Low;
    var l1 := if critical then Critical else l0;
    var l2 := if high then High else l1;
    var l3 := if medium && !critical && !high then Medium else l2;
    if reassign && medium then Medium else l3
  }

  /** One rule of the cascade: when `holds`, the account gets `level`. */
  datatype Rule = Rule(holds: bool, level: Level)

  /** The first rule that holds decides; `BAJA` when none does. */
  function FirstMatch(rules: seq<Rule>): (l: Level)
    ensures l == Low || exists i :: 0 <= i < |rules| && rules[i].holds && rules[i].level == l
    ensures forall i :: 0 <= i < |rules| && rules[i].holds && (forall j :: 0 <= j < i ==> !rules[j].holds)
              ==> l == rules[i].level
  {
    if |rules| == 0 then Low
    else if rules[0].holds then rules[0].level
    else
      var l := FirstMatch(rules[1..]);
      assert forall i :: 1 <= i < |rules| ==> rules[i] == rules[1..][i - 1];
      l
  }

  /** The rule order of the classifier: `+ALTA`, `ALTA`, `MEDIA`, else `BAJA`. */
  function Rules(a: Account): seq<Rule> {
    [Rule(IsCritical(a), Critical), Rule(TopPriority(a), High), Rule(MidPriority(a), Medium)]
  }

  /** The risk level of an account, first matching rule wins. */
  function Classify(a: Account): (l: Level)
    ensures l == Critical <==> IsCritical(a)
    ensures l == High <==> TopPriority(a) && !IsCritical(a)
    ensures l == Medium <==> MidPriority(a) && !TopPriority(a)
    ensures l == Low <==> !TopPriority(a) && !MidPriority(a)
  {
    var rules := Rules(a);
    var l := FirstMatch(rules);
    PrefixesDisjoint(a);
    assert rules[0].holds ==> l == Critical;
    assert !rules[0].holds && rules[1].holds ==> l == High;
    assert !rules[0].holds && !rules[1].holds && rules[2].holds ==> l == Medium;
    l
  }

  /** No text starts with both `13` and one of the `MEDIA` prefixes. */
  lemma PrefixesDisjoint(a: Account)
    ensures TopPriority(a) ==> !MidPriority(a)
  {
    var s := AsText(a.priority);
    if TopPriority(a) {
      assert s[..2] == "13";
      forall i | 0 <= i < |MediumPrefixes|
        ensures !StartsWith(s, MediumPrefixes[i])
      {
        assert |MediumPrefixes[i]| == 2 && MediumPrefixes[i] != "13";
      }
    }
  }

  /** The source's sequence of assignments gives the cascade's label, and the
      final unconditional `MEDIA` assignment changes nothing. */
  lemma AssignedIsClassify(a: Account)
    ensures Assigned(a, true) == Assigned(a, false) == Classify(a)
  {
    PrefixesDisjoint(a);
  }

  lemma DirectContactExample()
    ensures Lower(Strip(" Contacto DIRECTO")) == "contacto directo"
  {
    LeadingSpaceStripped();
    LowerExample();
  }

  lemma LeadingSpaceStripped()
    ensures Strip(" Contacto DIRECTO") == "Contacto DIRECTO"
  {
    var w := "Contacto DIRECTO";
    assert " Contacto DIRECTO" == [' '] + w;
    StripLeadingSpace(' ', w);
  }

  lemma LowerExample()
    ensures Lower("Contacto DIRECTO") == "contacto directo"
  {
    var l := Lower("Contacto DIRECTO");
    assert forall i :: 0 <= i < 16 ==> l[i] == "contacto directo"[i];
  }

  /** Priority 13, direct contact and nothing recovered is `+ALTA`. */
  lemma ClassifyCriticalExample()
    ensures Classify(Account(None, None, None, Some("13"), Some(" Contacto DIRECTO"), None, None,
                             Num(0.0), Blank, Blank, Blank, None)) == Critical
  {
    var a := Account(None, None, None, Some("13"), Some(" Contacto DIRECTO"), None, None,
                     Num(0.0), Blank, Blank, Blank, None);
    assert TopPriority(a) by { assert AsText(a.priority) == "13"; }
    assert DirectContact(a) by {
      assert AsText(a.contact) == " Contacto DIRECTO";
      DirectContactExample();
    }
    assert IsCritical(a);
  }

  /** Priority 05 is `MEDIA`, whatever the contact. */
  lemma ClassifyMediumExample()
    ensures Classify(Account(None, None, None, Some("05"), Some("x"), None, None,
                             Blank, Blank, Blank, Blank, None)) == Medium
  {
    assert StartsWith("05", MediumPrefixes[7]);
  }

  /** Priority 13 without direct contact is `ALTA`. */
  lemma ClassifyHighExample()
    ensures Classify(Account(None, None, None, Some("13"), Some("y"), None, None,
                             Blank, Blank, Blank, Blank, None)) == High
  {
    assert Lower(Strip("y")) != "contacto directo" by {
      assert |Strip("y")| <= 1;
    }
  }

  /** A numeric priority rendered as text, `"5"`, matches no prefix, and a
      missing one renders as `"nan"`. */
  lemma ClassifyUnpaddedPriority(a: Account)
    requires a.priority == Some("5") || a.priority == None
    ensures Classify(a) == Low
  {
    var s := AsText(a.priority);
    assert s == "5" || s == "nan";
    assert !TopPriority(a) by {
      assert |s| < 2 || s[..2][0] != '1';
    }
    forall i | 0 <= i < |MediumPrefixes|
      ensures !StartsWith(AsText(a.priority), MediumPrefixes[i])
    {
      assert |MediumPrefixes[i]| == 2;
      assert AsText(a.priority)[0] != MediumPrefixes[i][0];
    }
  }
}
