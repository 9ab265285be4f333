/** The contact page record for one locale: address, working hours and description are
    looked up for exactly that locale, missing text becomes "", and the VR360 fields are
    passed through. */
module ContactService {
  import opened Seqs
  import opened Content

  datatype ContactContent = ContactContent(description: string)

  /** The record as the backend sends it; a missing per-locale text is an absent key or "". */
  datatype Contact = Contact(
    phone: Option<string>, email: Option<string>, website: Option<string>,
    address: map<string, string>, socialMedia: Option<map<string, string>>,
    mapCoordinates: Option<string>, workingHours: map<string, string>,
    content: map<string, ContactContent>,
    vr360Link: Option<string>, vrTitle: Option<string>, isDisplaying: Option<bool>)

  datatype ContactUI = ContactUI(
    phone: string, email: string, website: string, address: string,
    socialMedia: map<string, string>, mapCoordinates: string, workingHours: string,
    description: string, vr360Link: Option<string>, vrTitle: Option<string>, isDisplaying: Option<bool>)

  /** `v || ''` for an optional string. */
  function TextOrEmpty(v: Option<string>): (r: string)
    ensures v.Some? ==> r == v.value
    ensures v.None? ==> r == ""
  {
    match v case Some(s) => s case None => ""
  }

  /** `transformContactForUI(contact, locale)`. */
  function TransformContactForUI(contact: Contact, locale: string): (r: ContactUI)
    ensures r.address == (if locale in contact.address then contact.address[locale] else "")
    ensures r.workingHours == (if locale in contact.workingHours then contact.workingHours[locale] else "")
    ensures r.description == (if locale in contact.content then contact.content[locale].description else "")
    ensures contact.phone.None? ==> r.phone == ""
    ensures contact.email.None? ==> r.email == ""
    ensures contact.website.None? ==> r.website == ""
    ensures contact.phone.Some? ==> r.phone == contact.phone.value
    ensures contact.email.Some? ==> r.email == contact.email.value
    ensures contact.website.Some? ==> r.website == contact.website.value
    ensures contact.socialMedia.None? ==> r.socialMedia == map[]
    ensures contact.socialMedia.Some? ==> r.socialMedia == contact.socialMedia.value
    ensures contact.mapCoordinates.None? ==> r.mapCoordinates == ""
    ensures contact.mapCoordinates.Some? ==> r.mapCoordinates == contact.mapCoordinates.value
    ensures r.vr360Link == contact.vr360Link && r.vrTitle == contact.vrTitle && r.isDisplaying == contact.isDisplaying
  {
    var content := Lookup(contact.content, locale);
    ContactUI(
      TextOrEmpty(contact.phone), TextOrEmpty(contact.email), TextOrEmpty(contact.website),
      TextOrEmpty(Lookup(contact.address, locale)),
      match contact.socialMedia case Some(m) => m case None => map[],
      TextOrEmpty(contact.mapCoordinates),
      TextOrEmpty(Lookup(contact.workingHours, locale)),
      if content.Some? then content.value.description else "",
      contact.vr360Link, contact.vrTitle, contact.isDisplaying)
  }

  /** Changing or adding the texts of another locale does not change what one locale sees. */
  lemma OtherLocalesIgnored(contact: Contact, locale: string, other: string,
                            address: string, hours: string, content: ContactContent)
    requires other != locale
    ensures TransformContactForUI(contact.(address := contact.address[other := address],
                                           workingHours := contact.workingHours[other := hours],
                                           content := contact.content[other := content]), locale)
            == TransformContactForUI(contact, locale)
  {
  }
}
