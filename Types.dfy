/** The data shapes the whiteboard passes around. JavaScript numbers are
    modelled as `real`; optional fields as `Option`. */
module Types {
  import opened Common

  /** A point, either on screen (pixels relative to the viewport element) or
      on the canvas (zoom- and pan-independent coordinates). */
  datatype Position = Position(x: real, y: real)

  datatype Dimensions = Dimensions(width: real, height: real)

  /** A page of the whiteboard; the registry also keeps creation and update
      timestamps (ISO strings). */
  datatype Page = Page(id: string, name: string, createdAt: string, updatedAt: string)

  /** A placed image. `position` is in canvas coordinates. */
  datatype DesignIteration = DesignIteration(
    id: string,
    name: string,
    pageId: string,
    imageUrl: string,
    position: Position,
    dimensions: Option<Dimensions>,
    timestamp: string,
    feedback: Option<string>)

  /** What a caller hands to `addDesign`: a design without id and timestamp. */
  datatype DesignDraft = DesignDraft(
    name: string,
    pageId: string,
    imageUrl: string,
    position: Position,
    dimensions: Option<Dimensions>,
    feedback: Option<string>)
}
