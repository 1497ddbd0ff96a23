/**
 * The guided-tour carousel of the demo dialog, DemoCarousel
 * (src/App.tsx:457-512): an index into the ten tour steps, moved by the
 * "previous" and "next" buttons (each clamped to the list) and by the dots
 * under the image (one per step).
 */
module Carousel {

  /** One slide of the tour. */
  datatype Slide = Slide(title: string, description: string, image: string)

  /** The `steps` list, in order: ten slides, the first the dashboard and the last the settings. */
  function Steps(): (r: seq<Slide>)
    ensures |r| == 10
    ensures r[0].title == "Dashboard" && r[|r| - 1].title == "Configuración"
  {
    [
      Slide("Dashboard", "Panel de control centralizado", "/src/assets/images/1.png"),
      Slide("Tablero Kanban", "Gestión visual de tareas y órdenes", "/src/assets/images/2.1.png"),
      Slide("Inventarios", "Gestión de materiales en tiempo real", "/src/assets/images/2.png"),
      Slide("Diseño", "Fichas técnicas y patrones", "/src/assets/images/3.png"),
      Slide("Corte", "Órdenes y planificación", "/src/assets/images/4.png"),
      Slide("Producción", "Control de piso y avances", "/src/assets/images/5.png"),
      Slide("POS", "Ventas integradas", "/src/assets/images/6.png"),
      Slide("Reportes", "Análisis y métricas", "/src/assets/images/7.png"),
      Slide("Permisos", "Control de acceso", "/src/assets/images/8.png"),
      Slide("Configuración", "Personalización completa", "/src/assets/images/9.png")
    ]
  }

  /**
   * `Math.max(0, i - 1)`: the larger of 0 and `i - 1`, so never negative,
   * and one step back from any index inside the list.
   */
  function PrevStep(i: int): (r: int)
    ensures r >= 0 && r >= i - 1
    ensures r == 0 || r == i - 1
    ensures 0 <= i < |Steps()| ==> 0 <= r < |Steps()|
  {
    if i - 1 < 0 then 0 else i - 1
  }

  /**
   * `Math.min(count - 1, i + 1)`: the smaller of the last index and
   * `i + 1`, so never past the last step.
   */
  function NextStep(i: int, count: int): (r: int)
    ensures r <= count - 1 && r <= i + 1
    ensures r == count - 1 || r == i + 1
    ensures 0 <= i < count ==> 0 <= r < count
  {
    if count - 1 < i + 1 then count - 1 else i + 1
  }

  /** The first and the last step are fixed points of the clamps; elsewhere they move by one. */
  lemma ClampsAtEnds(i: int)
    requires 0 <= i < |Steps()|
    ensures PrevStep(i) == if i == 0 then 0 else i - 1
    ensures NextStep(i, |Steps()|) == if i == |Steps()| - 1 then i else i + 1
    ensures i > 0 ==> NextStep(PrevStep(i), |Steps()|) == i
    ensures i < |Steps()| - 1 ==> PrevStep(NextStep(i, |Steps()|)) == i
  {
  }

  class DemoCarousel {
    var currentStep: int

    ghost predicate Valid()
      reads this
    {
      0 <= currentStep < |Steps()|
    }

    /** `useState(0)`: the tour opens on its first step. */
    constructor ()
      ensures Valid() && currentStep == 0
    {
      currentStep := 0;
    }

    /** The "Anterior" button. */
    method Previous()
      requires Valid()
      modifies this
      ensures Valid()
      ensures currentStep == PrevStep(old(currentStep))
    {
      currentStep := PrevStep(currentStep);
    }

    /** The "Siguiente" button. */
    method Next()
      requires Valid()
      modifies this
      ensures Valid()
      ensures currentStep == NextStep(old(currentStep), |Steps()|)
    {
      currentStep := NextStep(currentStep, |Steps()|);
    }

    /** The dot for step `i`. */
    method Jump(i: int)
      requires 0 <= i < |Steps()|
      modifies this
      ensures Valid() && currentStep == i
    {
      currentStep := i;
    }
  }
}
