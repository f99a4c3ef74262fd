/**
 * The OCR service: one optional PaddleOCR engine that is loaded on demand,
 * kept until it is unloaded, and used to read text from an image. The
 * engine's predictions are reshaped into (box, text, confidence) entries.
 */
module Ocr {
  import opened Outcomes

  /** A PaddleOCR engine; its internals are not part of this model. */
  datatype Engine = Engine(id: nat)

  /** A polygon: a list of [x, y] points. */
  type Poly = seq<seq<real>>

  /** One reshaped detection: its box and the recognised text with its confidence. */
  datatype Entry = Entry(bbox: Poly, text: string, score: real)

  /**
   * The first item `ocr.predict` yields: the dict format (each key present
   * or absent), the old list format, or anything else.
   */
  datatype Prediction =
    | DictResult(recTexts: Option<seq<string>>, recScores: Option<seq<real>>,
                 recPolys: Option<seq<Poly>>, dtPolys: Option<seq<Poly>>)
    | ListResult(entries: seq<Entry>)
    | OtherResult

  /** dict.get(key, default) */
  function GetOr<T>(o: Option<T>, default: T): T
  {
    if o.Some? then o.value else default
  }

  /** result.get("rec_polys", result.get("dt_polys", [])): rec_polys when present, else dt_polys, else []. */
  function PolysOf(d: Prediction): (polys: seq<Poly>)
    requires d.DictResult?
    ensures d.recPolys.Some? ==> polys == d.recPolys.value
    ensures d.recPolys.None? && d.dtPolys.Some? ==> polys == d.dtPolys.value
    ensures d.recPolys.None? && d.dtPolys.None? ==> polys == []
  {
    GetOr(d.recPolys, GetOr(d.dtPolys, []))
  }

  /**
   * The dict format reshaped: one entry per recognised text, in order; a
   * missing box is [] and a missing score 0.0.
   */
  function FormatEntries(texts: seq<string>, scores: seq<real>, polys: seq<Poly>): (r: seq<Entry>)
    ensures |r| == |texts|
    ensures forall i :: 0 <= i < |r| ==> r[i].text == texts[i]
    ensures forall i :: 0 <= i < |r| ==> r[i].score == if i < |scores| then scores[i] else 0.0
    ensures forall i :: 0 <= i < |r| ==> r[i].bbox == if i < |polys| then polys[i] else []
  {
    seq(|texts|, i requires 0 <= i < |texts| =>
      Entry(if i < |polys| then polys[i] else [], texts[i], if i < |scores| then scores[i] else 0.0))
  }

  /** The formatting loop of perform_ocr. */
  method FormatDictResult(texts: seq<string>, scores: seq<real>, polys: seq<Poly>) returns (formatted: seq<Entry>)
    ensures formatted == FormatEntries(texts, scores, polys)
  {
    formatted := [];
    for i := 0 to |texts|
      invariant formatted == FormatEntries(texts[..i], scores, polys)
    {
      var bbox := if i < |polys| then polys[i] else [];
      var text := if i < |texts| then texts[i] else "";
      var score := if i < |scores| then scores[i] else 0.0;
      formatted := formatted + [Entry(bbox, text, score)];
    }
    assert texts[..|texts|] == texts;
  }

  /** What perform_ocr returns for the items the engine's predict yields. */
  function OcrOutput(results: seq<Prediction>): seq<Entry>
  {
    if |results| == 0 then []
    else match results[0]
      case DictResult(_, _, _, _) =>
        var d := results[0];
        FormatEntries(GetOr(d.recTexts, []), GetOr(d.recScores, []), PolysOf(d))
      case ListResult(entries) => entries
      case OtherResult => []
  }

  /**
   * No prediction, or a first prediction in neither format, gives []; a
   * dict gives exactly one entry per recognised text, and nothing at all
   * when rec_texts is absent.
   */
  lemma OcrOutputShape(results: seq<Prediction>)
    ensures |results| == 0 ==> OcrOutput(results) == []
    ensures |results| > 0 && results[0].OtherResult? ==> OcrOutput(results) == []
    ensures |results| > 0 && results[0].DictResult? ==>
      |OcrOutput(results)| == |GetOr(results[0].recTexts, [])|
    ensures |results| > 0 && results[0].DictResult? && results[0].recTexts.None? ==> OcrOutput(results) == []
  {
  }

  /**
   * Boxes come from dt_polys exactly when rec_polys is absent: an entry's box
   * is then dt_polys[i] (or [] past its end).
   */
  lemma DetectionPolysFallback(d: Prediction, i: int)
    requires d.DictResult? && d.recPolys.None? && d.dtPolys.Some?
    requires 0 <= i < |GetOr(d.recTexts, [])|
    ensures OcrOutput([d])[i].bbox == if i < |d.dtPolys.value| then d.dtPolys.value[i] else []
  {
  }

  const LoadFailure: string := "Failed to load PaddleOCR model"

  class OcrService {
    /** _ocr_instance: the engine, or None while unloaded. */
    var instance: Option<Engine>

    constructor()
      ensures instance == None
    {
      instance := None;
    }

    /** is_loaded */
    function IsLoaded(): (loaded: bool)
      reads this
      ensures loaded <==> instance != None
    {
      instance.Some?
    }

    /**
     * load_model. `construct` is what importing paddleocr and calling
     * PaddleOCR(**OCR_CONFIG) gives: an engine or the exception raised. A
     * loaded engine is kept and True returned without constructing again;
     * otherwise the engine is stored and True returned, or, when
     * construction raises, False is returned and nothing is stored.
     */
    method LoadModel(construct: Try<Engine>) returns (success: bool)
      modifies this
      ensures old(instance).Some? ==> success && instance == old(instance)
      ensures old(instance).None? ==> (success <==> construct.Ok?)
      ensures old(instance).None? && construct.Ok? ==> instance == Some(construct.value)
      ensures old(instance).None? && construct.Raise? ==> instance == None
      ensures success <==> instance.Some?
    {
      if instance.Some? {
        return true;
      }
      match construct
      case Ok(engine) =>
        instance := Some(engine);
        success := true;
      case Raise(_) =>
        success := false;
    }

    /**
     * get_model: the loaded engine, loading it first if necessary; when
     * loading fails, RuntimeError("Failed to load PaddleOCR model").
     */
    method GetModel(construct: Try<Engine>) returns (r: Try<Engine>)
      modifies this
      ensures r.Ok? <==> instance.Some?
      ensures r.Ok? ==> instance == Some(r.value)
      ensures old(instance).Some? ==> r == Ok(old(instance).value) && instance == old(instance)
      ensures old(instance).None? && construct.Ok? ==> r == Ok(construct.value)
      ensures r.Raise? <==> old(instance).None? && construct.Raise?
      ensures r.Raise? ==> r.exc == RuntimeError(LoadFailure)
    {
      if instance.None? {
        var success := LoadModel(construct);
        if !success {
          return Raise(RuntimeError(LoadFailure));
        }
      }
      r := Ok(instance.value);
    }

    /**
     * perform_ocr: get (or load) the engine, run `predict` on the image and
     * reshape the first prediction. `predict` is the engine's predict call:
     * the items it yields, or the exception it raises, which propagates
     * with the engine still loaded. A failed load raises RuntimeError before
     * any prediction is made.
     */
    method PerformOcr(construct: Try<Engine>, predict: Engine -> Try<seq<Prediction>>) returns (r: Try<seq<Entry>>)
      modifies this
      ensures old(instance).Some? ==> instance == old(instance)
      ensures old(instance).None? ==> instance == if construct.Ok? then Some(construct.value) else None
      ensures old(instance).None? && construct.Raise? ==> r == Raise(RuntimeError(LoadFailure))
      ensures instance.Some? && predict(instance.value).Raise? ==> r == Raise(predict(instance.value).exc)
      ensures instance.Some? && predict(instance.value).Ok? ==> r == Ok(OcrOutput(predict(instance.value).value))
      ensures r.Ok? <==> instance.Some? && predict(instance.value).Ok?
    {
      var model := GetModel(construct);
      if model.Raise? {
        return Raise(model.exc);
      }
      var predicted := predict(model.value);
      if predicted.Raise? {
        return Raise(predicted.exc);
      }
      var results := predicted.value;
      if |results| > 0 {
        var result := results[0];
        match result
        case DictResult(recTexts, recScores, _, _) =>
          var formatted := FormatDictResult(GetOr(recTexts, []), GetOr(recScores, []), PolysOf(result));
          return Ok(formatted);
        case ListResult(entries) =>
          return Ok(entries);
        case OtherResult =>
          return Ok([]);
      }
      r := Ok([]);
    }

    /** unload_model: the engine is dropped (if any) and True returned, so a second call changes nothing. */
    method UnloadModel() returns (success: bool)
      modifies this
      ensures success && instance == None
    {
      if instance.Some? {
        instance := None;
      }
      success := true;
    }
  }
}
