/**
  The contact page (src/app/Contact/page.tsx): the message form, the
  `mailto:` link its submit button opens, and the WhatsApp link of each
  branch card.
 */
module Contact {
  import opened Outcomes
  import opened Text
  import UriComponent

  datatype ContactField = Name | Email | Subject | Message

  datatype ContactFormData = ContactFormData(name: string, email: string, subject: string, message: string) {
    function Get(field: ContactField): string {
      match field
      case Name => name
      case Email => email
      case Subject => subject
      case Message => message
    }
  }

  const InitialForm := ContactFormData("", "", "", "")

  /** `handleInputChange`: the named field takes the value, the others are kept. */
  function SetField(f: ContactFormData, field: ContactField, value: string): (r: ContactFormData)
    ensures r.Get(field) == value
    ensures forall other :: other != field ==> r.Get(other) == f.Get(other)
  {
    match field
    case Name => f.(name := value)
    case Email => f.(email := value)
    case Subject => f.(subject := value)
    case Message => f.(message := value)
  }

  /** The message body, with CR LF written as `%0D%0A` and the fields inserted without encoding. */
  function MailBody(f: ContactFormData): (body: string)
    ensures |body| >= 19 + |f.name| + |f.email|
    ensures body[6..6 + |f.name|] == f.name
    ensures body[19 + |f.name|..19 + |f.name| + |f.email|] == f.email
    ensures |f.message| <= |body| && body[|body| - |f.message|..] == f.message
  {
    var head := "Nama: " + f.name + "%0D%0AEmail: ";
    var body := head + f.email + "%0D%0A%0D%0APesan:%0D%0A" + f.message;
    assert |head| == 19 + |f.name|;
    assert body[6..6 + |f.name|] == f.name;
    assert body[|head|..|head| + |f.email|] == f.email;
    body
  }

  const MailtoSubjectPrefix := "mailto:rzalcorp05@gmail.com?subject="

  /** The link opened on submit: the encoded subject, then the body as it is. */
  function MailtoLink(f: ContactFormData): (link: string)
    ensures StartsWith(link, MailtoSubjectPrefix)
    ensures link[|MailtoSubjectPrefix|..] == UriComponent.Encode(f.subject) + "&body=" + MailBody(f)
  {
    var link := MailtoSubjectPrefix + UriComponent.Encode(f.subject) + "&body=" + MailBody(f);
    assert link[..|MailtoSubjectPrefix|] == MailtoSubjectPrefix;
    link
  }

  /** Where the `body` value starts in the link. */
  function BodyStart(f: ContactFormData): nat {
    |MailtoSubjectPrefix| + |UriComponent.Encode(f.subject)| + |"&body="|
  }

  /** No `&` and no `#` in an encoded text. */
  lemma EncodedIsPlain(s: string)
    ensures forall i :: 0 <= i < |UriComponent.Encode(s)| ==>
      UriComponent.Encode(s)[i] != '&' && UriComponent.Encode(s)[i] != '#'
  {
  }

  /** Whatever the subject holds, the link's `subject` parameter decodes back to it. */
  lemma MailSubjectRoundTrip(f: ContactFormData)
    ensures UriComponent.Decode(QueryValue(MailtoLink(f)[|MailtoSubjectPrefix|..])) == Some(f.subject)
  {
    var e := UriComponent.Encode(f.subject);
    EncodedIsPlain(f.subject);
    assert e + "&body=" + MailBody(f) == e + ("&body=" + MailBody(f));
    QueryValueOfPlain(e, "&body=" + MailBody(f));
    UriComponent.DecodeEncode(f.subject);
  }

  /** The `body` parameter is the whole body exactly when no field puts a `&` or `#` into it. */
  lemma MailBodyIntactIff(f: ContactFormData)
    ensures MailtoLink(f)[BodyStart(f)..] == MailBody(f)
    ensures QueryValue(MailBody(f)) == MailBody(f) <==>
      forall i :: 0 <= i < |MailBody(f)| ==> MailBody(f)[i] != '&' && MailBody(f)[i] != '#'
  {
    var b := MailBody(f);
    if forall i :: 0 <= i < |b| ==> b[i] != '&' && b[i] != '#' {
      QueryValueOfPlain(b, []);
      assert b + [] == b;
    }
  }

  /** An `&` in the message cuts the `body` parameter short: the mail client loses the rest of the message. */
  lemma AmpersandInMessageCutsBody(f: ContactFormData, k: nat)
    requires k < |f.message| && f.message[k] == '&'
    ensures |QueryValue(MailBody(f))| < |MailBody(f)|
  {
    var b := MailBody(f);
    var head := "Nama: " + f.name + "%0D%0AEmail: " + f.email + "%0D%0A%0D%0APesan:%0D%0A";
    assert b == head + f.message;
    assert b[|head| + k] == '&';
  }

  // ---------------------------------------------------------------------------
  // Branches

  datatype Branch = Branch(name: string, kind: string, address: string, phone: string, whatsapp: string, hours: string)

  const Branches := [
    Branch("Kantor Pusat", "main", "Jl. Tulunagagung", "+62 821 4299 1064", "6282142991064", "08:00 - 17:00 WIB"),
    Branch("Cabang Bandung", "branch", "Jl. Tulungagung", "+62 821 4299 1064", "6282142991064", "08:00 - 16:00 WIB"),
    Branch("Cabang Talun", "branch", "Jl. Blitar", "+62 821 4299 1064", "6282142991064", "08:00 - 16:00 WIB"),
    Branch("Cabang Rejotangan", "branch", "Jl. Tulungagung", "+62 821 4299 1064", "6282142991064", "08:00 - 16:00 WIB")]

  /** The head-office badge and building icon are shown exactly for a branch of kind `main`. */
  predicate IsHeadOffice(b: Branch) {
    b.kind == "main"
  }

  /** The first card, and only the first, carries the head-office badge. */
  lemma OnlyFirstIsHeadOffice()
    ensures forall i :: 0 <= i < |Branches| ==> (IsHeadOffice(Branches[i]) <==> i == 0)
  {
  }

  function WhatsAppMessage(branchName: string): string {
    "Halo! Saya ingin bertanya mengenai layanan perbankan di " + branchName + "."
  }

  function WhatsAppPrefix(number: string): string {
    "https://wa.me/" + number + "?text="
  }

  /** `handleWhatsAppClick`: the chat link with the greeting naming the branch, encoded. */
  function WhatsAppUrl(number: string, branchName: string): (url: string)
    ensures StartsWith(url, WhatsAppPrefix(number))
    ensures url[|WhatsAppPrefix(number)|..] == UriComponent.Encode(WhatsAppMessage(branchName))
  {
    var url := WhatsAppPrefix(number) + UriComponent.Encode(WhatsAppMessage(branchName));
    assert url[..|WhatsAppPrefix(number)|] == WhatsAppPrefix(number);
    url
  }

  /** The `text` parameter is the whole encoded greeting and decodes back to it, whatever the branch name. */
  lemma WhatsAppTextRoundTrip(number: string, branchName: string)
    ensures var text := QueryValue(WhatsAppUrl(number, branchName)[|WhatsAppPrefix(number)|..]);
      UriComponent.Decode(text) == Some(WhatsAppMessage(branchName))
  {
    var e := UriComponent.Encode(WhatsAppMessage(branchName));
    EncodedIsPlain(WhatsAppMessage(branchName));
    QueryValueOfPlain(e, []);
    assert e + [] == e;
    UriComponent.DecodeEncode(WhatsAppMessage(branchName));
  }

  // ---------------------------------------------------------------------------
  // The page

  class ContactPage {
    var formData: ContactFormData

    constructor()
      ensures formData == InitialForm
    {
      formData := InitialForm;
    }

    method HandleInputChange(field: ContactField, value: string)
      modifies this
      ensures formData == SetField(old(formData), field, value)
    {
      formData := SetField(formData, field, value);
    }

    /** `handleSubmit`: the link assigned to `window.location.href`. */
    method HandleSubmit() returns (location: string)
      ensures location == MailtoLink(formData)
    {
      location := MailtoLink(formData);
    }

    /** `handleWhatsAppClick`: the link opened in a new tab. */
    method HandleWhatsAppClick(number: string, branchName: string) returns (openedUrl: string)
      ensures openedUrl == WhatsAppUrl(number, branchName)
    {
      openedUrl := WhatsAppUrl(number, branchName);
    }
  }
}
