/** The pydantic models of src/models/extractor.py: one tariff record and
    one table image with its parsed tariffs. */
module TariffModels {
  import opened Common

  /** `ShippingTariff`: one row of a tariff table. */
  datatype ShippingTariff = ShippingTariff(
    country: string,
    tariffType: string,
    linerName: Option<string>,
    port: Option<string>,
    equipmentType: string,
    currency: string,
    freeDays: int,
    bucket1: Option<int>,
    bucket2: Option<int>,
    bucket3: Option<int>)

  /** The field names, in declaration order. */
  const FieldNames: seq<string> := ["Country", "Type", "Liner_Name", "Port", "Equipment_Type",
                                    "Currency", "Free_days", "Bucket_1", "Bucket_2", "Bucket_3"]

  function OptionalText(o: Option<string>): Value {
    match o
    case Some(s) => Text(s)
    case None => Null
  }

  function OptionalInt(o: Option<int>): Value {
    match o
    case Some(i) => Int(i)
    case None => Null
  }

  /** `getattr(t, name)`, as the Python value it holds. */
  function Field(t: ShippingTariff, name: string): Value {
    match name
    case "Country" => Text(t.country)
    case "Type" => Text(t.tariffType)
    case "Liner_Name" => OptionalText(t.linerName)
    case "Port" => OptionalText(t.port)
    case "Equipment_Type" => Text(t.equipmentType)
    case "Currency" => Text(t.currency)
    case "Free_days" => Int(t.freeDays)
    case "Bucket_1" => OptionalInt(t.bucket1)
    case "Bucket_2" => OptionalInt(t.bucket2)
    case "Bucket_3" => OptionalInt(t.bucket3)
    case _ => Null
  }

  /** `values()`: the ten fields in declaration order; no `doc_id`. */
  function Values(t: ShippingTariff): (r: seq<Value>)
    ensures |r| == |FieldNames| == 10
    ensures forall i :: 0 <= i < 10 ==> r[i] == Field(t, FieldNames[i])
  {
    [Text(t.country), Text(t.tariffType), OptionalText(t.linerName), OptionalText(t.port),
     Text(t.equipmentType), Text(t.currency), Int(t.freeDays),
     OptionalInt(t.bucket1), OptionalInt(t.bucket2), OptionalInt(t.bucket3)]
  }

  function TextOf(v: Value): Option<string> {
    if v.Text? then Some(v.text) else None
  }

  function OptionalTextOf(v: Value): Option<Option<string>> {
    match v
    case Null => Some(None)
    case Text(s) => Some(Some(s))
    case Int(_) => None
  }

  function OptionalIntOf(v: Value): Option<Option<int>> {
    match v
    case Null => Some(None)
    case Int(i) => Some(Some(i))
    case Text(_) => None
  }

  /** Reading a ten-value tuple back into a tariff, when every component
      has its field's type. */
  function FromValues(vs: seq<Value>): Option<ShippingTariff> {
    if |vs| != 10 then None
    else if !(vs[0].Text? && vs[1].Text? && vs[4].Text? && vs[5].Text? && vs[6].Int?) then None
    else if OptionalTextOf(vs[2]).None? || OptionalTextOf(vs[3]).None? then None
    else if OptionalIntOf(vs[7]).None? || OptionalIntOf(vs[8]).None? || OptionalIntOf(vs[9]).None? then None
    else Some(ShippingTariff(vs[0].text, vs[1].text, OptionalTextOf(vs[2]).value, OptionalTextOf(vs[3]).value,
                             vs[4].text, vs[5].text, vs[6].number,
                             OptionalIntOf(vs[7]).value, OptionalIntOf(vs[8]).value, OptionalIntOf(vs[9]).value))
  }

  /** `values()` loses nothing: the tariff can be read back from it. */
  lemma ValuesRoundTrip(t: ShippingTariff)
    ensures FromValues(Values(t)) == Some(t)
  {
  }

  /** Two tariffs are equal exactly when their `values()` are. */
  lemma ValuesInjective(a: ShippingTariff, b: ShippingTariff)
    ensures Values(a) == Values(b) <==> a == b
  {
    if Values(a) == Values(b) {
      ValuesRoundTrip(a);
      ValuesRoundTrip(b);
    }
  }

  /** An optional keyword argument: its value, or the default `None`. */
  function OrNone<T>(a: Arg<Option<T>>): Option<T> {
    match a
    case Given(v) => v
    case Omitted => None
  }

  /** `ShippingTariff(**kwargs)` with typed arguments: validation fails when
      one of the five fields without a default is left out. */
  function NewShippingTariff(country: Arg<string>, tariffType: Arg<string>,
                             linerName: Arg<Option<string>>, port: Arg<Option<string>>,
                             equipmentType: Arg<string>, currency: Arg<string>, freeDays: Arg<int>,
                             bucket1: Arg<Option<int>>, bucket2: Arg<Option<int>>, bucket3: Arg<Option<int>>)
    : (r: Option<ShippingTariff>)
    ensures r.Some? <==> country.Given? && tariffType.Given? && equipmentType.Given? && currency.Given? && freeDays.Given?
    ensures r.Some? ==> r.value.country == country.value && r.value.tariffType == tariffType.value
                        && r.value.equipmentType == equipmentType.value && r.value.currency == currency.value
                        && r.value.freeDays == freeDays.value
    ensures r.Some? ==> r.value.linerName == OrNone(linerName) && r.value.port == OrNone(port)
    ensures r.Some? ==> r.value.bucket1 == OrNone(bucket1) && r.value.bucket2 == OrNone(bucket2)
                        && r.value.bucket3 == OrNone(bucket3)
  {
    if country.Omitted? || tariffType.Omitted? || equipmentType.Omitted? || currency.Omitted? || freeDays.Omitted?
    then None
    else Some(ShippingTariff(country.value, tariffType.value, OrNone(linerName), OrNone(port),
                             equipmentType.value, currency.value, freeDays.value,
                             OrNone(bucket1), OrNone(bucket2), OrNone(bucket3)))
  }

  /** Passing every field of a tariff rebuilds that tariff. */
  lemma NewShippingTariffFromFields(t: ShippingTariff)
    ensures NewShippingTariff(Given(t.country), Given(t.tariffType), Given(t.linerName), Given(t.port),
                              Given(t.equipmentType), Given(t.currency), Given(t.freeDays),
                              Given(t.bucket1), Given(t.bucket2), Given(t.bucket3)) == Some(t)
  {
  }

  /** Leaving out every optional field gives `None` in each of them. */
  lemma NewShippingTariffDefaults(country: string, tariffType: string, equipmentType: string,
                                  currency: string, freeDays: int)
    ensures NewShippingTariff(Given(country), Given(tariffType), Omitted, Omitted,
                              Given(equipmentType), Given(currency), Given(freeDays),
                              Omitted, Omitted, Omitted)
            == Some(ShippingTariff(country, tariffType, None, None, equipmentType, currency, freeDays,
                                   None, None, None))
  {
  }

  /** `Table`: a table image, its PDF and page, and the tariffs parsed from it. */
  datatype Table<Img> = Table(img: Img, pdfFile: string, pageNo: string,
                              tariff: Option<seq<ShippingTariff>>)

  /** `Table(**kwargs)`: `img`, `pdf_file` and `page_no` are required,
      `tariff` defaults to `None`. */
  function NewTable<Img>(img: Arg<Img>, pdfFile: Arg<string>, pageNo: Arg<string>,
                         tariff: Arg<Option<seq<ShippingTariff>>>): (r: Option<Table<Img>>)
    ensures r.Some? <==> img.Given? && pdfFile.Given? && pageNo.Given?
    ensures r.Some? ==> r.value.tariff == OrNone(tariff)
    ensures r.Some? ==> r.value.img == img.value && r.value.pdfFile == pdfFile.value && r.value.pageNo == pageNo.value
  {
    if img.Omitted? || pdfFile.Omitted? || pageNo.Omitted? then None
    else Some(Table(img.value, pdfFile.value, pageNo.value, OrNone(tariff)))
  }
}
