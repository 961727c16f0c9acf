/** The two stages a model reply goes through: extraction, then the tolerant decoder. */
module JsonReply {
  import opened JsonText
  import JsonExtract
  import JsonRepair
  import JsonUnique

  /** An object or array with stray commas at any depth, prose before and after it, and at
      most a safe fence, is read as the value it means. */
  lemma ReplyIsRead(loads: string -> JsonRepair.Parsed, p: string, v: Json, q: string)
    requires JsonRepair.IsStrictDecoder(loads)
    requires Valid(v) && JsonExtract.Composite(v) && JsonExtract.NoOpener(p) && JsonExtract.FenceSafe(p, v)
    ensures JsonRepair.Tolerant(loads, JsonExtract.Extract(p + Print(v) + q))
         == JsonRepair.Parsed(Meaning(v))
  {
    hide JsonExtract.Extract, JsonExtract.FenceSafe, Print, Valid;
    JsonExtract.ExtractRecovers(p, v, q);
    var d := JsonRepair.Doc("", v, "");
    assert JsonRepair.PrintDoc(d) == Print(v);
    JsonRepair.TolerantReadsValue(loads, d);
  }

  /** The same for the one strict decoder there is, with nothing assumed about it. */
  lemma ReplyIsDecoded(p: string, v: Json, q: string)
    requires Valid(v) && JsonExtract.Composite(v) && JsonExtract.NoOpener(p) && JsonExtract.FenceSafe(p, v)
    ensures JsonRepair.Tolerant(text => JsonUnique.Decode(text), JsonExtract.Extract(p + Print(v) + q))
         == JsonRepair.Parsed(Meaning(v))
  {
    hide *;
    JsonUnique.StrictDecoderExists();
    ReplyIsRead(text => JsonUnique.Decode(text), p, v, q);
  }
}
