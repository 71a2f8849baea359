/** The parts of an ATT&CK Navigator layer document that the layer scripts share. */
module LayerFormat {

  datatype Versions = Versions(layer: string, navigator: string)

  datatype LegendItem = LegendItem(text: string, color: string)  // the JSON keys "label" and "color"

  /** The `versions` object every layer script writes. */
  const LAYER_VERSIONS: Versions := Versions("4.1", "4.1")

  const ENTERPRISE_DOMAIN: string := "enterprise-attack"
}
