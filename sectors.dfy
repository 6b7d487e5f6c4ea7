/** Sector bucketing: the provider's free-text sector is mapped onto the four buckets the
    valuation front end distinguishes, by substring rules tried in a fixed order. */
module Sectors {
  import opened Text

  datatype SectorType = SaaS | Financial | Semiconductor | General

  /** The bucket of a sector string. "Technology" or "Software" wins over every other
      keyword, then "Financial" or "Bank", then "Semiconductor"; anything else is General. */
  function Classify(sector: string): (b: SectorType)
    ensures b == SaaS <==> Occurs(sector, "Technology") || Occurs(sector, "Software")
    ensures b == Financial <==>
              && !Occurs(sector, "Technology") && !Occurs(sector, "Software")
              && (Occurs(sector, "Financial") || Occurs(sector, "Bank"))
    ensures b == Semiconductor <==>
              && !Occurs(sector, "Technology") && !Occurs(sector, "Software")
              && !Occurs(sector, "Financial") && !Occurs(sector, "Bank")
              && Occurs(sector, "Semiconductor")
    ensures b == General <==>
              && !Occurs(sector, "Technology") && !Occurs(sector, "Software")
              && !Occurs(sector, "Financial") && !Occurs(sector, "Bank")
              && !Occurs(sector, "Semiconductor")
  {
    if Contains(sector, "Technology") || Contains(sector, "Software") then SaaS
    else if Contains(sector, "Financial") || Contains(sector, "Bank") then Financial
    else if Contains(sector, "Semiconductor") then Semiconductor
    else General
  }

  /** A keyword anywhere in the text counts, whatever surrounds it. */
  lemma {:induction false} OccursInside(pre: string, sub: string, post: string)
    ensures Occurs(pre + sub + post, sub)
  {
    var s := pre + sub + post;
    assert s[|pre|..|pre| + |sub|] == sub;
    assert OccursAt(s, sub, |pre|);
  }

  /** The bucket depends on the order of the rules, not on where a keyword sits:
      text holding both "Semiconductor" and "Software", or both "Financial" and
      "Technology", is SaaS, whichever of the two comes first. */
  lemma ClassifyPrecedence(pre: string, mid: string, post: string)
    ensures Classify(pre + "Semiconductor" + mid + "Software" + post) == SaaS
    ensures Classify(pre + "Software" + mid + "Semiconductor" + post) == SaaS
    ensures Classify(pre + "Financial" + mid + "Technology" + post) == SaaS
    ensures Classify(pre + "Technology" + mid + "Financial" + post) == SaaS
  {
    OccursInside(pre + "Semiconductor" + mid, "Software", post);
    OccursInside(pre, "Software", mid + "Semiconductor" + post);
    assert pre + "Software" + mid + "Semiconductor" + post
        == pre + "Software" + (mid + "Semiconductor" + post);
    OccursInside(pre + "Financial" + mid, "Technology", post);
    OccursInside(pre, "Technology", mid + "Financial" + post);
    assert pre + "Technology" + mid + "Financial" + post
        == pre + "Technology" + (mid + "Financial" + post);
  }

  /** The buckets of typical provider sectors, and of the default "General". */
  lemma ClassifyTechnology()
    ensures Classify("Technology") == SaaS
  {
    assert OccursAt("Technology", "Technology", 0);
  }

  lemma ClassifyFinancialServices()
    ensures Classify("Financial Services") == Financial
  {
    var fin := "Financial Services";
    MissingCharNotOccurs(fin, "Technology", 0);
    MissingCharNotOccurs(fin, "Software", 4);
    assert OccursAt(fin, "Financial", 0);
  }

  lemma ClassifyDefaultSector()
    ensures Classify("General") == General
  {
    var gen := "General";
    MissingCharNotOccurs(gen, "Technology", 0);
    MissingCharNotOccurs(gen, "Software", 0);
    MissingCharNotOccurs(gen, "Financial", 0);
    MissingCharNotOccurs(gen, "Bank", 0);
    MissingCharNotOccurs(gen, "Semiconductor", 0);
  }
}
