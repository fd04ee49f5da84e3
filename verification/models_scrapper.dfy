/** `TariffEntry` (src/models/scrapper.py): one entry of the tariff index
    the scraper downloads, built from a JSON object. */
module ScrapperModels {
  import opened Common

  datatype TariffEntry = TariffEntry(
    country: string,
    inPdfName: string,
    outPdfName: string,
    inIddsPdfUuid: string,
    outIddsPdfUuid: string,
    content: string)

  /** The six keys `from_dict` reads. */
  const EntryKeys: set<string> := {"country", "inPdfName", "outPdfName", "inIddsPdfUuid", "outIddsPdfUuid", "content"}

  /** `getattr(entry, key)` for the six fields; the empty string otherwise. */
  function FieldNamed(e: TariffEntry, key: string): string {
    match key
    case "country" => e.country
    case "inPdfName" => e.inPdfName
    case "outPdfName" => e.outPdfName
    case "inIddsPdfUuid" => e.inIddsPdfUuid
    case "outIddsPdfUuid" => e.outIddsPdfUuid
    case "content" => e.content
    case _ => ""
  }

  /** `TariffEntry.from_dict(data)`: total; each field is the dict's value
      for its key, or `''` when the key is missing. */
  function FromDict(data: map<string, string>): (r: TariffEntry)
    ensures forall k :: k in EntryKeys && k in data ==> FieldNamed(r, k) == data[k]
    ensures forall k :: k in EntryKeys && k !in data ==> FieldNamed(r, k) == ""
  {
    TariffEntry(
      country := Lookup(data, "country", ""),
      inPdfName := Lookup(data, "inPdfName", ""),
      outPdfName := Lookup(data, "outPdfName", ""),
      inIddsPdfUuid := Lookup(data, "inIddsPdfUuid", ""),
      outIddsPdfUuid := Lookup(data, "outIddsPdfUuid", ""),
      content := Lookup(data, "content", ""))
  }

  /** `dataclasses.asdict(entry)`: the dict holding exactly the six fields
      under their names. `TariffEntry` defines no conversion of its own. */
  function AsDict(e: TariffEntry): (r: map<string, string>)
    ensures r.Keys == EntryKeys
    ensures forall k :: k in r ==> r[k] == FieldNamed(e, k)
  {
    map["country" := e.country, "inPdfName" := e.inPdfName, "outPdfName" := e.outPdfName,
        "inIddsPdfUuid" := e.inIddsPdfUuid, "outIddsPdfUuid" := e.outIddsPdfUuid,
        "content" := e.content]
  }

  /** An entry is determined by its six fields. */
  lemma FieldsDetermineEntry(a: TariffEntry, b: TariffEntry)
    requires forall k :: k in EntryKeys ==> FieldNamed(a, k) == FieldNamed(b, k)
    ensures a == b
  {
    assert FieldNamed(a, "country") == FieldNamed(b, "country");
    assert FieldNamed(a, "inPdfName") == FieldNamed(b, "inPdfName");
    assert FieldNamed(a, "outPdfName") == FieldNamed(b, "outPdfName");
    assert FieldNamed(a, "inIddsPdfUuid") == FieldNamed(b, "inIddsPdfUuid");
    assert FieldNamed(a, "outIddsPdfUuid") == FieldNamed(b, "outIddsPdfUuid");
    assert FieldNamed(a, "content") == FieldNamed(b, "content");
  }

  /** Building the dict of an entry's fields and reading it back gives the entry. */
  lemma FromDictAsDict(e: TariffEntry)
    ensures FromDict(AsDict(e)) == e
  {
    FieldsDetermineEntry(FromDict(AsDict(e)), e);
  }

  /** Keys other than the six never change the result. */
  lemma FromDictIgnoresExtraKeys(data: map<string, string>, extra: map<string, string>)
    requires extra.Keys !! EntryKeys
    ensures FromDict(data + extra) == FromDict(data)
  {
    forall k | k in EntryKeys
      ensures Lookup(data + extra, k, "") == Lookup(data, k, "")
    {
      assert k !in extra;
    }
  }

  /** The empty dict gives the all-empty entry. */
  lemma FromEmptyDict()
    ensures FromDict(map[]) == TariffEntry("", "", "", "", "", "")
  {
  }
}
