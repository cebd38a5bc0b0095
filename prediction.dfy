/**
 * The inputs `predecir_distancia` hands to the trained model: each node
 * label becomes a numeric id `ord(label) - ord('A') + 1`, and the two
 * option counts are summed. The model itself is a foreign call and is
 * taken as a parameter.
 */
module Prediction {
  import opened Options
  import opened Frontier

  /**
   * `ord(label) - ord('A') + 1`. Python's `ord` accepts exactly one
   * character and raises `TypeError` otherwise; no other check is made,
   * so any single character gets an id (a lower-case 'a' gets 33).
   */
  function LabelId(name: string): (r: Option<int>)
    ensures r.Some? <==> |name| == 1
    ensures r.Some? ==> ('A' <= name[0] <= 'Z' <==> 1 <= r.value <= 26)
  {
    if |name| == 1 then Some(name[0] as int - 'A' as int + 1) else None
  }

  /** Every id from 1 to 26 is the id of one upper-case letter. */
  lemma LetterIds(k: int)
    ensures 1 <= k <= 26 <==> exists c: char :: 'A' <= c <= 'Z' && LabelId([c]) == Some(k)
  {
    if 1 <= k <= 26 {
      var c := ('A' as int + k - 1) as char;
      assert 'A' <= c <= 'Z' && LabelId([c]) == Some(k);
    }
  }

  /** Different labels never share an id. */
  lemma LabelIdInjective(a: string, b: string)
    requires LabelId(a).Some? && LabelId(a) == LabelId(b)
    ensures a == b
  {
    assert a == [a[0]] && b == [b[0]];
  }

  /**
   * Ids follow the order the search breaks ties by: for one-character
   * labels, Python's string comparison and the id comparison agree.
   */
  lemma LabelIdOrdered(a: string, b: string)
    requires LabelId(a).Some? && LabelId(b).Some?
    ensures LabelBefore(a, b) <==> LabelId(a).value < LabelId(b).value
  {
    assert a[1..] == [] && b[1..] == [];
  }

  /** The three features `[[origen_id, destino_id, total_opciones]]` fed to the model. */
  datatype Features = Features(origenId: int, destinoId: int, totalOptions: int)

  /**
   * The features for a query, or `None` when a label is not a single
   * character (the `ord` call raises before the model is consulted).
   */
  function Encode(origen: string, destino: string, opcionesA: int, opcionesB: int): (r: Option<Features>)
    ensures r.Some? <==> |origen| == 1 && |destino| == 1
    ensures r.Some? ==> Some(r.value.origenId) == LabelId(origen) && Some(r.value.destinoId) == LabelId(destino)
    ensures r.Some? ==> r.value.totalOptions == opcionesA + opcionesB
  {
    match (LabelId(origen), LabelId(destino))
    case (Some(o), Some(d)) => Some(Features(o, d, opcionesA + opcionesB))
    case _ => None
  }

  /** What a call of `predecir_distancia` ends in. */
  datatype Prediction =
    | EncodingRaised           // `ord` raised: the exception leaves the function
    | ModelFailed              // `model.predict` raised: reported, and `None` returned
    | Predicted(value: real)   // `predicted_distance[0][0]`

  /**
   * `predecir_distancia(origen, destino, opciones_a, opciones_b)`. The
   * trained model is the parameter `model`; it answers `None` where
   * `model.predict` raises.
   */
  function PredictDistance(origen: string, destino: string, opcionesA: int, opcionesB: int,
                           model: Features -> Option<real>): (r: Prediction)
    ensures r.EncodingRaised? <==> Encode(origen, destino, opcionesA, opcionesB).None?
    ensures r.ModelFailed? <==>
      |origen| == 1 && |destino| == 1 && model(Encode(origen, destino, opcionesA, opcionesB).value).None?
    ensures r.Predicted? ==>
      model(Encode(origen, destino, opcionesA, opcionesB).value) == Some(r.value)
  {
    match Encode(origen, destino, opcionesA, opcionesB)
    case None => EncodingRaised
    case Some(f) =>
      match model(f)
      case None => ModelFailed
      case Some(v) => Predicted(v)
  }
}
