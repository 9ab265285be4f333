/** The hotel policy page for one locale: its three texts come from exactly that locale's
    entry ("" without one) and the VR360 fields are passed through. */
module PolicyService {
  import opened Seqs
  import opened Content

  /** One locale's texts; an absent field is "". */
  datatype PolicyContent = PolicyContent(title: string, shortDescription: string, detailedContent: string)

  datatype Policy = Policy(
    content: map<string, PolicyContent>,
    vr360Link: Option<string>, vrTitle: Option<string>, isDisplaying: Option<bool>)

  datatype PolicyUI = PolicyUI(
    title: string, shortDescription: string, detailedContent: string,
    vr360Link: Option<string>, vrTitle: Option<string>, isDisplaying: Option<bool>)

  /** `transformPolicyForUI(policy, locale)`. */
  function TransformPolicyForUI(policy: Policy, locale: string): (r: PolicyUI)
    ensures locale !in policy.content ==> r.title == "" && r.shortDescription == "" && r.detailedContent == ""
    ensures locale in policy.content ==>
              r.title == policy.content[locale].title
              && r.shortDescription == policy.content[locale].shortDescription
              && r.detailedContent == policy.content[locale].detailedContent
    ensures r.vr360Link == policy.vr360Link && r.vrTitle == policy.vrTitle
    ensures r.isDisplaying == policy.isDisplaying
  {
    match Lookup(policy.content, locale)
    case Some(c) =>
      PolicyUI(c.title, c.shortDescription, c.detailedContent,
                   policy.vr360Link, policy.vrTitle, policy.isDisplaying)
    case None =>
      PolicyUI("", "", "", policy.vr360Link, policy.vrTitle, policy.isDisplaying)
  }

  /** Only the entry of the requested locale is consulted. */
  lemma OtherLocalesIgnored(policy: Policy, locale: string, other: string, entry: PolicyContent)
    requires other != locale
    ensures TransformPolicyForUI(policy.(content := policy.content[other := entry]), locale)
            == TransformPolicyForUI(policy, locale)
  {
  }
}
