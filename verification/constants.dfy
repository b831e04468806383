/** The application's fixed tables: supported file types and document categories. */
module Constants {
  import opened Wrappers
  import opened Types

  const MiB: nat := 1024 * 1024

  /** An entry of `SUPPORTED_FILE_TYPES`. */
  datatype FileTypeInfo = FileTypeInfo(extension: string, maxSize: nat)

  /** `SUPPORTED_FILE_TYPES`, keyed by MIME type. */
  const SupportedFileTypes: map<string, FileTypeInfo> := map[
    "image/jpeg" := FileTypeInfo("jpg", 10 * MiB),
    "image/png" := FileTypeInfo("png", 10 * MiB),
    "image/gif" := FileTypeInfo("gif", 5 * MiB),
    "image/webp" := FileTypeInfo("webp", 10 * MiB),
    "application/pdf" := FileTypeInfo("pdf", 25 * MiB),
    "application/msword" := FileTypeInfo("doc", 10 * MiB),
    "application/vnd.openxmlformats-officedocument.wordprocessingml.document" := FileTypeInfo("docx", 10 * MiB),
    "text/plain" := FileTypeInfo("txt", 1 * MiB)
  ]

  /** An entry of `DOCUMENT_CATEGORIES`. */
  datatype CategoryInfo = CategoryInfo(labelText: string, icon: string, description: string)

  /** `DOCUMENT_CATEGORIES`, keyed by the stored category string. */
  const DocumentCategories: map<string, CategoryInfo> := map[
      "nepali_citizenship" := CategoryInfo(
        "नेपाली नागरिकता प्रमाणपत्र (Citizenship Certificate)",
        "🇳🇵",
        "नेपाली नागरिकता प्रमाणपत्रहरू (Nepali citizenship certificates)"),
      "birth_registration" := CategoryInfo(
        "जन्म दर्ता प्रमाणपत्र (Birth Certificate)",
        "👶",
        "जन्म दर्ता प्रमाणपत्रहरू (Birth registration certificates)"),
      "passport" := CategoryInfo(
        "राहदानी (Passport)",
        "📘",
        "राहदानी र यात्रा कागजातहरू (Passport and travel documents)"),
      "national_id" := CategoryInfo(
        "राष्ट्रिय परिचयपत्र (National ID)",
        "🆔",
        "राष्ट्रिय परिचयपत्रहरू (National identity cards)"),
      "driving_license" := CategoryInfo(
        "सवारी चालक अनुमतिपत्र (Driving License)",
        "🚗",
        "सवारी चालक अनुमतिपत्रहरू (Driving licenses)"),
      "slc_see" := CategoryInfo(
        "एसएलसी/एसईई प्रमाणपत्र (SLC/SEE Certificate)",
        "📜",
        "एसएलसी वा माध्यमिक शिक्षा परीक्षा प्रमाणपत्रहरू (SLC or SEE certificates)"),
      "higher_secondary" := CategoryInfo(
        "उच्च माध्यमिक शिक्षा प्रमाणपत्र (+2 Certificate)",
        "🎓",
        "उच्च माध्यमिक शिक्षा प्रमाणपत्र (Higher secondary education certificate)"),
      "academic_transcripts" := CategoryInfo(
        "शैक्षिक विवरणपत्र (Academic Transcripts)",
        "📊",
        "शैक्षिक विवरणपत्र र अंक प्रतिवेदनहरू (Academic transcripts and grade reports)"),
      "character_certificate" := CategoryInfo(
        "चरित्र प्रमाणपत्र (Character Certificate)",
        "📋",
        "शैक्षिक संस्थाहरूबाट चरित्र प्रमाणपत्रहरू (Character certificates from institutions)"),
      "bachelors_degree" := CategoryInfo(
        "स्नातक डिग्री प्रमाणपत्र (Bachelor's Degree)",
        "🎓",
        "स्नातक डिग्री प्रमाणपत्रहरू (Bachelor's degree certificates)"),
      "masters_degree" := CategoryInfo(
        "स्नातकोत्तर डिग्री प्रमाणपत्र (Master's Degree)",
        "🎓",
        "स्नातकोत्तर डिग्री प्रमाणपत्रहरू (Master's degree certificates)"),
      "voter_id" := CategoryInfo(
        "मतदाता परिचयपत्र (Voter ID)",
        "🗳️",
        "मतदाता परिचयपत्रहरू (Voter identification cards)"),
      "marriage_registration" := CategoryInfo(
        "विवाह दर्ता प्रमाणपत्र (Marriage Certificate)",
        "💒",
        "विवाह दर्ता प्रमाणपत्रहरू (Marriage registration certificates)"),
      "death_registration" := CategoryInfo(
        "मृत्यु दर्ता प्रमाणपत्र (Death Certificate)",
        "⚱️",
        "मृत्यु दर्ता प्रमाणपत्रहरू (Death registration certificates)"),
      "minor_citizenship" := CategoryInfo(
        "नाबालक नागरिकता प्रमाणपत्र (Minor Citizenship)",
        "👦",
        "नाबालक नागरिकता प्रमाणपत्रहरू (Minor citizenship certificates)"),
      "nrn_id" := CategoryInfo(
        "अनिवासी नेपाली परिचयपत्र (NRN ID Card)",
        "🌍",
        "अनिवासी नेपाली परिचयपत्रहरू (Non-Resident Nepali ID cards)")
  ]

  /**
   * The names every plain JavaScript object inherits from `Object.prototype`.
   * Indexing a table literal with one of them yields a function or an object,
   * not `undefined`.
   */
  const ObjectPrototypeNames: set<string> := {
    "constructor", "__proto__", "hasOwnProperty", "isPrototypeOf",
    "propertyIsEnumerable", "toLocaleString", "toString", "valueOf",
    "__defineGetter__", "__defineSetter__", "__lookupGetter__", "__lookupSetter__"
  }

  /** What `table[key]` yields for a table written as an object literal. */
  datatype Lookup<+V> = Own(entry: V) | Inherited | Missing {
    /** JavaScript truthiness of the looked-up value. */
    predicate Truthy() { !Missing? }
  }

  /** `table[key]` on an object literal: own entry, inherited member, or `undefined`. */
  function PropertyLookup<V>(table: map<string, V>, key: string): (r: Lookup<V>)
    ensures r.Own? <==> key in table
    ensures r.Own? ==> r.entry == table[key]
    ensures r.Inherited? <==> key !in table && key in ObjectPrototypeNames
  {
    if key in table then Own(table[key])
    else if key in ObjectPrototypeNames then Inherited
    else Missing
  }

  /** `getDocumentCategory(key)`. */
  function GetDocumentCategory(key: string): (r: Lookup<CategoryInfo>)
    ensures ParseCategory(key).Some? ==> r == Own(DocumentCategories[key])
    ensures ParseCategory(key).None? && key !in ObjectPrototypeNames ==> r == Missing
  {
    CategoryTableIsUnion(key);
    PropertyLookup(DocumentCategories, key)
  }

  /** The category table's keys are exactly the members of the `DocumentCategory` union. */
  lemma CategoryTableIsUnion(key: string)
    ensures key in DocumentCategories <==> ParseCategory(key).Some?
  {
  }

  /** The file-type table has eight entries. */
  lemma SupportedFileTypesSize()
    ensures |SupportedFileTypes| == 8
  {
  }

  /** No two supported MIME types share an extension. */
  lemma SupportedExtensionsDistinct()
    ensures forall a, b :: a in SupportedFileTypes && b in SupportedFileTypes && a != b ==>
      SupportedFileTypes[a].extension != SupportedFileTypes[b].extension
  {
  }

  /** PDF allows 25 MiB, GIF 5 MiB, plain text 1 MiB, every other type 10 MiB. */
  lemma SupportedSizeLimits()
    ensures SupportedFileTypes["application/pdf"].maxSize == 25 * MiB
    ensures SupportedFileTypes["image/gif"].maxSize == 5 * MiB
    ensures SupportedFileTypes["text/plain"].maxSize == MiB
    ensures forall t :: t in SupportedFileTypes && t !in {"application/pdf", "image/gif", "text/plain"} ==>
      SupportedFileTypes[t].maxSize == 10 * MiB
  {
  }

  /** No supported type allows more than 25 MiB. */
  lemma SupportedSizeBound()
    ensures forall t :: t in SupportedFileTypes ==> SupportedFileTypes[t].maxSize <= 25 * MiB
  {
  }

  /** No supported MIME type collides with an inherited object member. */
  lemma SupportedTypesAreOwnNames()
    ensures forall t :: t in SupportedFileTypes ==> t !in ObjectPrototypeNames
  {
  }
}
