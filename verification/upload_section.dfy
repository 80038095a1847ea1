/**
 * `_detect_content_type` of the upload section: the content-type label
 * guessed from an uploaded file's name, by keyword, case-insensitively.
 */
module UploadSection {
  import opened Text

  /** The seven labels the detector can return. */
  datatype ContentKind = CaseStudy | Whitepaper | Ebook | SalesDeck | EmailTemplate | Document | Unknown

  /** The label as the application stores it. */
  function Label(k: ContentKind): (s: string)
    ensures |s| > 0
  {
    match k
    case CaseStudy => "case_study"
    case Whitepaper => "whitepaper"
    case Ebook => "ebook"
    case SalesDeck => "sales_deck"
    case EmailTemplate => "email_template"
    case Document => "document"
    case Unknown => "unknown"
  }

  /** Different kinds carry different labels, so the label determines the kind. */
  lemma LabelInjective(a: ContentKind, b: ContentKind)
    ensures Label(a) == Label(b) <==> a == b
  {
    if a != b {
      assert Label(a)[0] != Label(b)[0] || Label(a)[1] != Label(b)[1] || |Label(a)| != |Label(b)|;
    }
  }

  /** The detector: an if/elif chain over the lower-cased name, first match wins. */
  function DetectContentType(filename: string): ContentKind {
    var f := Lower(filename);
    if Contains(f, "case") && Contains(f, "study") then CaseStudy
    else if Contains(f, "whitepaper") then Whitepaper
    else if Contains(f, "ebook") then Ebook
    else if Contains(f, "deck") || Contains(f, "presentation") then SalesDeck
    else if Contains(f, "email") then EmailTemplate
    else if EndsWith(f, ".pdf") then Document
    else Unknown
  }

  // ---------------------------------------------------------------------
  // The rule table: an independent statement of the same classification
  // ---------------------------------------------------------------------

  /**
   * A keyword rule: it matches when, for one of its alternatives, every
   * keyword of that alternative occurs in the name.
   */
  datatype Rule = Rule(alternatives: seq<seq<string>>, kind: ContentKind)

  /** The keyword rules in the order they are tried. */
  const KeywordRules: seq<Rule> := [
    Rule([["case", "study"]], CaseStudy),
    Rule([["whitepaper"]], Whitepaper),
    Rule([["ebook"]], Ebook),
    Rule([["deck"], ["presentation"]], SalesDeck),
    Rule([["email"]], EmailTemplate)
  ]

  predicate AllOccur(f: string, words: seq<string>) {
    forall w :: 0 <= w < |words| ==> Contains(f, words[w])
  }

  predicate RuleMatches(f: string, r: Rule) {
    exists a :: 0 <= a < |r.alternatives| && AllOccur(f, r.alternatives[a])
  }

  /** The kind of the first matching rule; with none, the `.pdf` suffix decides. */
  function FirstRule(rules: seq<Rule>, f: string): ContentKind {
    if rules == [] then (if EndsWith(f, ".pdf") then Document else Unknown)
    else if RuleMatches(f, rules[0]) then rules[0].kind
    else FirstRule(rules[1..], f)
  }

  /** No rule of the list matches. */
  predicate NoneMatch(rules: seq<Rule>, f: string) {
    forall j :: 0 <= j < |rules| ==> !RuleMatches(f, rules[j])
  }

  /** Kinds of a rule table that name each rule uniquely and leave the two suffix labels free. */
  predicate WellFormed(rules: seq<Rule>) {
    (forall i :: 0 <= i < |rules| ==> rules[i].kind != Document && rules[i].kind != Unknown)
    && (forall i, j :: 0 <= i < j < |rules| ==> rules[i].kind != rules[j].kind)
  }

  lemma KeywordRulesWellFormed()
    ensures WellFormed(KeywordRules)
  {
  }

  /** The detector is the rule table applied to the lower-cased name. */
  lemma DetectByRules(filename: string)
    ensures DetectContentType(filename) == FirstRule(KeywordRules, Lower(filename))
  {
    var f := Lower(filename);
    var rs := KeywordRules;
    BothKeywords(f, "case", "study", rs[0]);
    OneKeyword(f, "whitepaper", rs[1]);
    OneKeyword(f, "ebook", rs[2]);
    EitherKeyword(f, "deck", "presentation", rs[3]);
    OneKeyword(f, "email", rs[4]);
    FirstRuleCons(rs[4], [], f);
    FirstRuleCons(rs[3], [rs[4]], f);
    FirstRuleCons(rs[2], [rs[3], rs[4]], f);
    FirstRuleCons(rs[1], [rs[2], rs[3], rs[4]], f);
    FirstRuleCons(rs[0], [rs[1], rs[2], rs[3], rs[4]], f);
    assert [rs[0]] + [rs[1], rs[2], rs[3], rs[4]] == rs;
  }

  lemma FirstRuleCons(r: Rule, rest: seq<Rule>, f: string)
    ensures FirstRule([r] + rest, f) == if RuleMatches(f, r) then r.kind else FirstRule(rest, f)
  {
    assert ([r] + rest)[1..] == rest;
  }

  lemma OneKeyword(f: string, w: string, r: Rule)
    requires r.alternatives == [[w]]
    ensures RuleMatches(f, r) <==> Contains(f, w)
  {
    if Contains(f, w) {
      assert AllOccur(f, r.alternatives[0]);
    }
    if RuleMatches(f, r) {
      var a :| 0 <= a < |r.alternatives| && AllOccur(f, r.alternatives[a]);
      assert Contains(f, r.alternatives[a][0]);
    }
  }

  lemma BothKeywords(f: string, v: string, w: string, r: Rule)
    requires r.alternatives == [[v, w]]
    ensures RuleMatches(f, r) <==> Contains(f, v) && Contains(f, w)
  {
    if Contains(f, v) && Contains(f, w) {
      assert AllOccur(f, r.alternatives[0]);
    }
    if RuleMatches(f, r) {
      var a :| 0 <= a < |r.alternatives| && AllOccur(f, r.alternatives[a]);
      assert Contains(f, r.alternatives[a][0]) && Contains(f, r.alternatives[a][1]);
    }
  }

  lemma EitherKeyword(f: string, v: string, w: string, r: Rule)
    requires r.alternatives == [[v], [w]]
    ensures RuleMatches(f, r) <==> Contains(f, v) || Contains(f, w)
  {
    if Contains(f, v) {
      assert AllOccur(f, r.alternatives[0]);
    } else if Contains(f, w) {
      assert AllOccur(f, r.alternatives[1]);
    }
    if RuleMatches(f, r) {
      var a :| 0 <= a < |r.alternatives| && AllOccur(f, r.alternatives[a]);
      assert Contains(f, r.alternatives[a][0]);
    }
  }

  /**
   * In a well-formed table, the result is the kind of rule i exactly when
   * rule i matches and no earlier rule does.
   */
  lemma {:induction false} FirstRuleAt(rules: seq<Rule>, f: string, i: nat)
    requires WellFormed(rules) && i < |rules|
    ensures FirstRule(rules, f) == rules[i].kind <==> RuleMatches(f, rules[i]) && NoneMatch(rules[..i], f)
  {
    assert WellFormed(rules[1..]) by {
      forall p, q | 0 <= p < q < |rules[1..]|
        ensures rules[1..][p].kind != rules[1..][q].kind
      {
        assert rules[1..][p] == rules[p + 1] && rules[1..][q] == rules[q + 1];
      }
    }
    if i == 0 {
      if !RuleMatches(f, rules[0]) {
        FirstRuleKinds(rules[1..], f);
      }
    } else {
      FirstRuleAt(rules[1..], f, i - 1);
      assert rules[1..][i - 1] == rules[i];
      assert rules[..i] == [rules[0]] + rules[1..][..i - 1];
      if RuleMatches(f, rules[0]) {
        assert rules[..i][0] == rules[0];
      } else {
        assert NoneMatch(rules[..i], f) <==> NoneMatch(rules[1..][..i - 1], f) by {
          if NoneMatch(rules[1..][..i - 1], f) {
            forall j | 0 <= j < i
              ensures !RuleMatches(f, rules[..i][j])
            {
              if j > 0 {
                assert rules[..i][j] == rules[1..][..i - 1][j - 1];
              }
            }
          }
          if NoneMatch(rules[..i], f) {
            var later := rules[1..][..i - 1];
            forall j | 0 <= j < |later|
              ensures !RuleMatches(f, later[j])
            {
              assert later[j] == rules[..i][j + 1];
            }
          }
        }
      }
    }
  }

  /** The result of a table with no matching first rule is a later rule's kind or a suffix label. */
  lemma {:induction false} FirstRuleKinds(rules: seq<Rule>, f: string)
    ensures FirstRule(rules, f) in {Document, Unknown} || exists j :: 0 <= j < |rules| && FirstRule(rules, f) == rules[j].kind
  {
    if rules != [] && !RuleMatches(f, rules[0]) {
      FirstRuleKinds(rules[1..], f);
      if FirstRule(rules[1..], f) !in {Document, Unknown} {
        var j :| 0 <= j < |rules[1..]| && FirstRule(rules[1..], f) == rules[1..][j].kind;
        assert rules[1..][j] == rules[j + 1];
      }
    }
  }

  /** With no rule matching, the `.pdf` suffix alone decides between the two remaining labels. */
  lemma {:induction false} FirstRuleNoMatch(rules: seq<Rule>, f: string)
    requires NoneMatch(rules, f)
    ensures FirstRule(rules, f) == if EndsWith(f, ".pdf") then Document else Unknown
  {
    if rules != [] {
      assert NoneMatch(rules[1..], f) by {
        forall j | 0 <= j < |rules[1..]|
          ensures !RuleMatches(f, rules[1..][j])
        {
          assert rules[1..][j] == rules[j + 1];
        }
      }
      FirstRuleNoMatch(rules[1..], f);
    }
  }

  /** A suffix label is returned only when no keyword rule matches. */
  lemma {:induction false} FirstRuleSuffix(rules: seq<Rule>, f: string)
    requires WellFormed(rules)
    requires FirstRule(rules, f) in {Document, Unknown}
    ensures NoneMatch(rules, f)
  {
    if rules != [] {
      assert WellFormed(rules[1..]) by {
        forall p, q | 0 <= p < q < |rules[1..]|
          ensures rules[1..][p].kind != rules[1..][q].kind
        {
          assert rules[1..][p] == rules[p + 1] && rules[1..][q] == rules[q + 1];
        }
      }
      FirstRuleSuffix(rules[1..], f);
      forall j | 0 <= j < |rules|
        ensures !RuleMatches(f, rules[j])
      {
        if j > 0 {
          assert rules[j] == rules[1..][j - 1];
        }
      }
    }
  }

  // ---------------------------------------------------------------------
  // What the detector promises
  // ---------------------------------------------------------------------

  /** Only the lower-cased name matters: names equal up to case get the same label. */
  lemma DetectIgnoresCase(a: string, b: string)
    requires Lower(a) == Lower(b)
    ensures DetectContentType(a) == DetectContentType(b)
  {
  }

  /** Lower-casing a name first changes nothing. */
  lemma DetectLowered(filename: string)
    ensures DetectContentType(Lower(filename)) == DetectContentType(filename)
  {
    LowerIdempotent(filename);
  }

  /** A name mentioning both "case" and "study" is a case study, whatever else it mentions. */
  lemma CaseStudyFirst(filename: string)
    ensures DetectContentType(filename) == CaseStudy <==>
      Contains(Lower(filename), "case") && Contains(Lower(filename), "study")
  {
  }

  /** Each keyword label is returned exactly when its rule is the first that matches. */
  lemma DetectKeywordKind(filename: string, i: nat)
    requires i < |KeywordRules|
    ensures DetectContentType(filename) == KeywordRules[i].kind <==>
      RuleMatches(Lower(filename), KeywordRules[i]) && NoneMatch(KeywordRules[..i], Lower(filename))
  {
    DetectByRules(filename);
    KeywordRulesWellFormed();
    FirstRuleAt(KeywordRules, Lower(filename), i);
  }

  /** `document` and `unknown` are left for names no keyword rule matches; the `.pdf` suffix splits them. */
  lemma DetectSuffixKind(filename: string)
    ensures DetectContentType(filename) in {Document, Unknown} <==> NoneMatch(KeywordRules, Lower(filename))
    ensures NoneMatch(KeywordRules, Lower(filename)) ==>
      (DetectContentType(filename) == Document <==> EndsWith(Lower(filename), ".pdf"))
  {
    var f := Lower(filename);
    DetectByRules(filename);
    KeywordRulesWellFormed();
    if DetectContentType(filename) in {Document, Unknown} {
      FirstRuleSuffix(KeywordRules, f);
    }
    if NoneMatch(KeywordRules, f) {
      FirstRuleNoMatch(KeywordRules, f);
    }
  }

  /** The stored label is always one of the seven. */
  lemma DetectLabel(filename: string)
    ensures Label(DetectContentType(filename)) in
      ["case_study", "whitepaper", "ebook", "sales_deck", "email_template", "document", "unknown"]
  {
  }
}
