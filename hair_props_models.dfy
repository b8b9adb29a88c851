/**
 * The two entities of the hair-props module, used as plain record shapes.
 * `deletedAt` is the soft-delete timestamp the framework adds to every model
 * (milliseconds since the epoch); "active" means it is absent.
 */
module HairPropsModels {
  import opened Wrappers

  /** A cap size offered for one product length. */
  datatype CapSize = CapSize(id: string, name: string, hexCode: string, productLengthId: string, deletedAt: Option<int>)

  /** A product length with its cap sizes. */
  datatype ProductLength = ProductLength(id: string, name: string, capSizes: seq<CapSize>, deletedAt: Option<int>)
}
