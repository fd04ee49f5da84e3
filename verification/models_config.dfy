/** `Config` and `ScrapperConfig` (src/models/config.py): the configuration
    built from the loaded YAML document and turned back into a dict. */
module ConfigModel {
  import Common

  /** A loaded YAML node. */
  datatype Yaml =
    | Null
    | Bool(flag: bool)
    | Int(number: int)
    | Str(text: string)
    | List(items: seq<Yaml>)
    | Mapping(entries: map<string, Yaml>)

  /** `ScrapperConfig`: the dataclass keeps whatever node it is given. */
  datatype ScrapperConfig = ScrapperConfig(url: Yaml, downloadLink: Yaml, outputDir: Yaml)

  datatype Config = Config(scrapper: ScrapperConfig)

  /** The keyword arguments `ScrapperConfig` accepts, all without default. */
  const ScrapperKeys: set<string> := {"url", "download_link", "output_dir"}

  /** The `scrapper` section, when the document is a mapping that has one. */
  function Section(data: Yaml): Common.Option<Yaml> {
    if data.Mapping? && "scrapper" in data.entries then Common.Some(data.entries["scrapper"]) else Common.None
  }

  /** `cls(scrapper=ScrapperConfig(**data["scrapper"]))`: fails unless the
      document is a mapping whose `scrapper` entry is a mapping with exactly
      the keys `url`, `download_link` and `output_dir`. */
  function FromData(data: Yaml): (r: Common.Option<Config>)
    ensures r.Some? <==> Section(data).Some? && Section(data).value.Mapping?
                         && Section(data).value.entries.Keys == ScrapperKeys
    ensures r.Some? ==>
      var fields := Section(data).value.entries;
      && r.value.scrapper.url == fields["url"]
      && r.value.scrapper.downloadLink == fields["download_link"]
      && r.value.scrapper.outputDir == fields["output_dir"]
  {
    if !data.Mapping? || "scrapper" !in data.entries then Common.None
    else
      var section := data.entries["scrapper"];
      if !section.Mapping? || section.entries.Keys != ScrapperKeys then Common.None
      else Common.Some(Config(ScrapperConfig(section.entries["url"], section.entries["download_link"],
                                      section.entries["output_dir"])))
  }

  /** `to_dict()`. */
  function ToDict(c: Config): (r: Yaml)
    ensures r.Mapping? && r.entries.Keys == {"scrapper"}
    ensures r.entries["scrapper"].Mapping? && r.entries["scrapper"].entries.Keys == ScrapperKeys
  {
    Mapping(map["scrapper" := Mapping(map["url" := c.scrapper.url,
                                          "download_link" := c.scrapper.downloadLink,
                                          "output_dir" := c.scrapper.outputDir])])
  }

  /** Building a `Config` from `to_dict()` gives back the same `Config`. */
  lemma ConfigRoundTrip(c: Config)
    ensures FromData(ToDict(c)) == Common.Some(c)
  {
    var fields := ToDict(c).entries["scrapper"].entries;
    assert fields["url"] == c.scrapper.url;
  }

  /** Top-level keys other than `scrapper` are ignored. */
  lemma OtherTopLevelKeysIgnored(entries: map<string, Yaml>, extra: map<string, Yaml>)
    requires "scrapper" !in extra
    ensures FromData(Mapping(entries + extra)) == FromData(Mapping(entries))
  {
    if "scrapper" in entries {
      assert (entries + extra)["scrapper"] == entries["scrapper"];
    }
  }

  /** A `scrapper` section with a key missing or a key too many is refused. */
  lemma WrongKeysRefused(section: map<string, Yaml>)
    requires section.Keys != ScrapperKeys
    ensures FromData(Mapping(map["scrapper" := Mapping(section)])).None?
  {
  }
}
