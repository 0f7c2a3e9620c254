/** Display helpers for import documents: type labels, status colours, icons, the size unit, the
    expiry test and the required-document checklist per import type. */
module DocumentUtils {
  import opened Wrappers
  import opened Tables

  /** `getDocumentTypeLabel`'s table. */
  const TypeLabels: seq<(string, string)> := [
    ("invoice", "Fatura Comercial"),
    ("packing", "Packing List"),
    ("bl", "Bill of Lading"),
    ("awb", "Air Waybill"),
    ("certificate", "Certificado de Origem"),
    ("license", "Licen\U{00E7}a de Importa\U{00E7}\U{00E3}o"),
    ("customs", "Declara\U{00E7}\U{00E3}o Aduaneira"),
    ("insurance", "Ap\U{00F3}lice de Seguro"),
    ("payment", "Comprovante de Pagamento"),
    ("other", "Outro")
  ]

  /** `documentTypes[type] || type`: the mapped label, else the key itself (every label is
      non-empty, so `||` only falls back for a missing key). */
  function DocumentTypeLabel(docType: string): (r: string)
    ensures !HasKey(TypeLabels, docType) ==> r == docType
    ensures HasKey(TypeLabels, docType) ==> exists i :: 0 <= i < |TypeLabels| && TypeLabels[i] == (docType, r)
  {
    Lookup(TypeLabels, docType).GetOr(docType)
  }

  const GrayClasses: string := "bg-gray-100 text-gray-800 border-gray-200"

  const StatusColors: seq<(string, string)> := [
    ("Aprovado", "bg-green-100 text-green-800 border-green-200"),
    ("Pendente", "bg-yellow-100 text-yellow-800 border-yellow-200"),
    ("Em an\U{00E1}lise", "bg-blue-100 text-blue-800 border-blue-200"),
    ("Rejeitado", "bg-red-100 text-red-800 border-red-200"),
    ("Expirado", GrayClasses),
    ("Arquivado", "bg-purple-100 text-purple-800 border-purple-200")
  ]

  /** `getStatusColor`: the status's classes, gray for an unknown status. */
  function StatusColor(status: string): (r: string)
    ensures !HasKey(StatusColors, status) ==> r == GrayClasses
    ensures HasKey(StatusColors, status) ==> exists i :: 0 <= i < |StatusColors| && StatusColors[i] == (status, r)
  {
    Lookup(StatusColors, status).GetOr(GrayClasses)
  }

  /** An expired document is drawn like a document of unknown status. */
  lemma ExpiredLooksUnknown(unknown: string)
    requires !HasKey(StatusColors, unknown)
    ensures StatusColor("Expirado") == StatusColor(unknown)
  {
    LookupEntry(StatusColors, 4);
  }

  const DefaultIcon: string := "\U{1F4C4}"

  const TypeIcons: seq<(string, string)> := [
    ("invoice", DefaultIcon),
    ("packing", "\U{1F4E6}"),
    ("bl", "\U{1F6A2}"),
    ("awb", "\U{2708}\U{FE0F}"),
    ("certificate", "\U{1F3C5}"),
    ("license", "\U{1F510}"),
    ("customs", "\U{1F3DB}\U{FE0F}"),
    ("insurance", "\U{1F6E1}\U{FE0F}"),
    ("payment", "\U{1F4B0}"),
    ("other", "\U{1F4CE}")
  ]

  /** `getDocumentTypeIcon`: the type's icon, the page icon for an unknown type. */
  function DocumentTypeIcon(docType: string): (r: string)
    ensures !HasKey(TypeIcons, docType) ==> r == DefaultIcon
    ensures HasKey(TypeIcons, docType) ==> exists i :: 0 <= i < |TypeIcons| && TypeIcons[i] == (docType, r)
  {
    Lookup(TypeIcons, docType).GetOr(DefaultIcon)
  }

  /** The label and icon tables cover the same document types, so a type has a label of its own
      exactly when it has an icon of its own. */
  lemma LabelsAndIconsAgree(docType: string)
    ensures HasKey(TypeLabels, docType) <==> HasKey(TypeIcons, docType)
  {
    assert forall i :: 0 <= i < 10 ==> TypeLabels[i].0 == TypeIcons[i].0;
    assert |TypeLabels| == |TypeIcons| == 10;
  }

  /** The unit `formatSize` picks, with the size already divided into it (the one-decimal
      rounding of `toFixed` is not modelled). */
  datatype SizeText = NotAvailable | Bytes(count: real) | Kilobytes(kb: real) | Megabytes(mb: real)

  /** `formatSize(bytes)`: `N/A` for a missing or zero size, bytes below 1024, KB below 1024², MB
      otherwise. */
  function FormatSize(bytes: Option<real>): (r: SizeText)
    ensures r.NotAvailable? <==> bytes.None? || bytes.value == 0.0
    ensures r.Bytes? ==> bytes.value < 1024.0 && r.count == bytes.value
    ensures r.Kilobytes? ==> 1024.0 <= bytes.value < 1048576.0 && r.kb * 1024.0 == bytes.value
    ensures r.Megabytes? ==> 1048576.0 <= bytes.value && r.mb * 1048576.0 == bytes.value
  {
    if bytes.None? || bytes.value == 0.0 then NotAvailable
    else if bytes.value < 1024.0 then Bytes(bytes.value)
    else if bytes.value < 1024.0 * 1024.0 then Kilobytes(bytes.value / 1024.0)
    else Megabytes(bytes.value / (1024.0 * 1024.0))
  }

  function UnitRank(t: SizeText): nat {
    match t
    case NotAvailable => 0
    case Bytes(_) => 1
    case Kilobytes(_) => 2
    case Megabytes(_) => 3
  }

  /** The number shown times its unit is the size, and a larger file never gets a smaller unit. */
  lemma FormatSizeMonotone(a: real, b: real)
    requires 0.0 < a <= b
    ensures UnitRank(FormatSize(Some(a))) <= UnitRank(FormatSize(Some(b)))
    ensures UnitRank(FormatSize(Some(a))) >= 1
  {
  }

  /** An expiration date: absent (or the empty string), an unparsable string, or a local time. */
  datatype Expiration = NoExpiration | InvalidDate | At(ms: int)

  /** `isDocumentExpired`, with the clock reading `now` as a parameter; an invalid date compares
      false. */
  predicate IsDocumentExpired(e: Expiration, now: int)
    ensures IsDocumentExpired(e, now) ==> e.At?
  {
    e.At? && e.ms < now
  }

  /** Without an expiration date a document never expires, and once expired it stays expired. */
  lemma ExpiryMonotone(e: Expiration, now: int, later: int)
    requires now <= later
    ensures !IsDocumentExpired(NoExpiration, now)
    ensures IsDocumentExpired(e, now) ==> IsDocumentExpired(e, later)
  {
  }

  datatype RequiredDocument = RequiredDocument(docType: string, name: string)

  const CommonDocuments: seq<RequiredDocument> := [
    RequiredDocument("invoice", "Fatura Comercial"),
    RequiredDocument("packing", "Packing List")
  ]

  /** `getRequiredDocuments(importType)`. */
  function RequiredDocuments(importType: string): (r: seq<RequiredDocument>)
    ensures |r| >= 2 && r[..2] == CommonDocuments
    ensures importType == "maritime" ==> |r| == 6 && r[2].docType == "bl"
    ensures importType == "air" ==> |r| == 5 && r[2].docType == "awb"
    ensures importType != "maritime" && importType != "air" ==> r == CommonDocuments
  {
    match importType
    case "maritime" =>
      CommonDocuments + [
        RequiredDocument("bl", "Bill of Lading"),
        RequiredDocument("insurance", "Ap\U{00F3}lice de Seguro"),
        RequiredDocument("license", "Licen\U{00E7}a de Importa\U{00E7}\U{00E3}o"),
        RequiredDocument("certificate", "Certificado de Origem")]
    case "air" =>
      CommonDocuments + [
        RequiredDocument("awb", "Air Waybill"),
        RequiredDocument("insurance", "Ap\U{00F3}lice de Seguro"),
        RequiredDocument("license", "Licen\U{00E7}a de Importa\U{00E7}\U{00E3}o")]
    case _ => CommonDocuments
  }

  /** No checklist asks for a document type twice, and an air shipment never asks for a bill of
      lading. */
  lemma RequiredDocumentsDistinct(importType: string)
    ensures var r := RequiredDocuments(importType);
            (forall i, j :: 0 <= i < j < |r| ==> r[i].docType != r[j].docType)
            && (importType == "air" ==> forall i :: 0 <= i < |r| ==> r[i].docType != "bl")
  {
  }

  /** A checklist entry whose type sits at `k` in the label table, and nowhere before it, is named
      by that label. */
  lemma NamedByLabel(d: RequiredDocument, k: nat)
    requires k < |TypeLabels| && TypeLabels[k] == (d.docType, d.name)
    requires forall j :: 0 <= j < k ==> TypeLabels[j].0 != d.docType
    ensures d.name == DocumentTypeLabel(d.docType)
  {
    LookupEntry(TypeLabels, k);
  }

  /** Where each checklist type sits in the label table. */
  function LabelIndex(docType: string): nat {
    match docType
    case "invoice" => 0
    case "packing" => 1
    case "bl" => 2
    case "awb" => 3
    case "certificate" => 4
    case "license" => 5
    case _ => 7
  }

  /** Every checklist entry is named by its type's label. */
  lemma RequiredDocumentsLabelled(importType: string)
    ensures var r := RequiredDocuments(importType);
            forall i :: 0 <= i < |r| ==> r[i].name == DocumentTypeLabel(r[i].docType)
  {
    var r := RequiredDocuments(importType);
    forall i | 0 <= i < |r|
      ensures r[i].name == DocumentTypeLabel(r[i].docType)
    {
      NamedByLabel(r[i], LabelIndex(r[i].docType));
    }
  }
}
