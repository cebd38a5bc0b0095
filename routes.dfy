/**
 * What the "Calcular Ruta" button does once the four text fields are read:
 * reject unknown nodes, run the exact search and the model's prediction,
 * and keep a record of the query only when both produced an answer.
 */
module Routes {
  import opened Options
  import opened Graphs
  import opened ShortestPath
  import opened Prediction

  /** A row of the `resultados` table, leaving out its auto-increment id. */
  datatype Record = Record(origen: string, destino: string, distancia: real, opciones: int)

  /** How a press of the button ends. */
  datatype Outcome =
    | InvalidNodes            // "Nodos no válidos en el grafo"
    | LabelRejected           // `ord` raised inside the prediction
    | NoRoute                 // "No hay ruta disponible"
    | PredictionFailed        // "Hubo un problema al predecir la distancia"
    | Shown(exact: nat, predicted: real, totalOptions: int)   // the result dialog

  /**
   * `calcular_ruta` after parsing its inputs: the outcome, and the record
   * handed to `guardar_resultado`, if any. The search and the prediction
   * both run before either result is inspected, so a label the encoding
   * rejects ends the call even when no route exists. The saved record
   * carries the predicted distance, not the exact one.
   */
  method CalculateRoute(g: Graph, origen: string, destino: string, opcionesA: int, opcionesB: int,
                        model: Features -> Option<real>)
    returns (outcome: Outcome, saved: Option<Record>)
    requires WellFormed(g)
    ensures outcome.InvalidNodes? <==> origen !in g || destino !in g
    ensures outcome.LabelRejected? <==> origen in g && destino in g && (|origen| != 1 || |destino| != 1)
    ensures outcome.NoRoute? <==>
      origen in g && destino in g && |origen| == 1 && |destino| == 1 && !Reachable(g, origen, destino)
    ensures outcome.PredictionFailed? <==>
      origen in g && destino in g && Reachable(g, origen, destino) &&
      PredictDistance(origen, destino, opcionesA, opcionesB, model).ModelFailed?
    ensures outcome.Shown? ==>
      && IsShortest(g, origen, destino, outcome.exact)
      && PredictDistance(origen, destino, opcionesA, opcionesB, model) == Predicted(outcome.predicted)
      && outcome.totalOptions == opcionesA + opcionesB
    ensures saved.Some? <==> outcome.Shown?
    ensures outcome.Shown? ==> saved == Some(Record(origen, destino, outcome.predicted, opcionesA + opcionesB))
  {
    if origen !in g || destino !in g {
      return InvalidNodes, None;
    }
    var exact;
    ghost var trace;
    exact, trace := Dijkstra(g, origen, destino);
    var predicted := PredictDistance(origen, destino, opcionesA, opcionesB, model);
    if predicted.EncodingRaised? {
      return LabelRejected, None;
    }
    if exact.Inf? {
      return NoRoute, None;
    }
    if predicted.ModelFailed? {
      return PredictionFailed, None;
    }
    var total := opcionesA + opcionesB;
    outcome := Shown(exact.n, predicted.value, total);
    saved := Some(Record(origen, destino, predicted.value, total));
  }

  /** The graph the program is built with: four nodes joined by undirected weighted roads. */
  function ExampleGraph(): (g: Graph)
    ensures WellFormed(g)
    ensures g.Keys == {"A", "B", "C", "D"}
  {
    map[
      "A" := map["B" := 4, "C" := 2],
      "B" := map["A" := 4, "C" := 1, "D" := 5],
      "C" := map["A" := 2, "B" := 1, "D" := 8],
      "D" := map["B" := 5, "C" := 8]
    ]
  }

  /** The route A, C, B, D of the example graph has length 2 + 1 + 5. */
  lemma ExampleWitness()
    ensures Witnessed(ExampleGraph(), "A", "D", 8)
  {
    var g := ExampleGraph();
    var p1: seq<Node> := ["A"];
    assert IsWalk(g, p1) && Weight(g, p1) == 0;
    Extend(g, p1, "C");
    var p2 := p1 + ["C"];
    Extend(g, p2, "B");
    var p3 := p2 + ["B"];
    Extend(g, p3, "D");
    var p4 := p3 + ["D"];
    assert IsPath(g, p4, "A", "D") && Weight(g, p4) == 8;
  }

  /** No route from A to D in the example graph is shorter than 8. */
  lemma ExampleLowerBound()
    ensures LowerBound(ExampleGraph(), "A", "D", 8)
  {
    var g := ExampleGraph();
    // The distances from A form a feasible potential.
    var pi := map["A" := 0, "B" := 3, "C" := 2, "D" := 8];
    forall u, v | u in g && v in g[u] ensures u in pi && v in pi && pi[v] <= pi[u] + g[u][v] {
      assert u == "A" || u == "B" || u == "C" || u == "D";
    }
    forall q | IsPath(g, q, "A", "D") ensures 8 <= Weight(g, q) {
      PotentialBound(g, pi, q);
    }
  }

  /** `dijkstra(graph, 'A', 'D')` on the example graph. */
  method ExampleRoute() returns (r: Dist)
    ensures r == Fin(8)
  {
    ExampleWitness();
    ExampleLowerBound();
    ghost var trace;
    r, trace := Dijkstra(ExampleGraph(), "A", "D");
    ShortestUnique(ExampleGraph(), "A", "D", r.n, 8);
  }
}
