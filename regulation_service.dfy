/** The hotel rules page for one locale: its three texts come from exactly that locale's
    entry ("" without one) and the VR360 fields are passed through. */
module RegulationService {
  import opened Seqs
  import opened Content

  /** One locale's texts; an absent field is "". */
  datatype RegulationContent = RegulationContent(title: string, shortDescription: string, detailedContent: string)

  datatype Regulation = Regulation(
    content: map<string, RegulationContent>,
    vr360Link: Option<string>, vrTitle: Option<string>, isDisplaying: Option<bool>)

  datatype RegulationUI = RegulationUI(
    title: string, shortDescription: string, detailedContent: string,
    vr360Link: Option<string>, vrTitle: Option<string>, isDisplaying: Option<bool>)

  /** `transformRegulationForUI(regulation, locale)`. */
  function TransformRegulationForUI(regulation: Regulation, locale: string): (r: RegulationUI)
    ensures locale !in regulation.content ==> r.title == "" && r.shortDescription == "" && r.detailedContent == ""
    ensures locale in regulation.content ==>
              r.title == regulation.content[locale].title
              && r.shortDescription == regulation.content[locale].shortDescription
              && r.detailedContent == regulation.content[locale].detailedContent
    ensures r.vr360Link == regulation.vr360Link && r.vrTitle == regulation.vrTitle
    ensures r.isDisplaying == regulation.isDisplaying
  {
    match Lookup(regulation.content, locale)
    case Some(c) =>
      RegulationUI(c.title, c.shortDescription, c.detailedContent,
                   regulation.vr360Link, regulation.vrTitle, regulation.isDisplaying)
    case None =>
      RegulationUI("", "", "", regulation.vr360Link, regulation.vrTitle, regulation.isDisplaying)
  }

  /** Only the entry of the requested locale is consulted. */
  lemma OtherLocalesIgnored(regulation: Regulation, locale: string, other: string, entry: RegulationContent)
    requires other != locale
    ensures TransformRegulationForUI(regulation.(content := regulation.content[other := entry]), locale)
            == TransformRegulationForUI(regulation, locale)
  {
  }
}
