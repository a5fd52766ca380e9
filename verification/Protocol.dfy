/** A value that may be missing: an optional field, or a ref that may be null. */
module Wrappers {
  datatype Option<+T> = None | Some(value: T)
}

/** Concatenations regrouped, for proofs that keep everything else out of sight. */
module Sequences {
  lemma Regroup<T>(a: seq<T>, b: seq<T>, c: seq<T>)
    ensures (a + b) + c == a + (b + c)
  {
  }

  lemma RegroupFour<T>(a: seq<T>, b: seq<T>, c: seq<T>, d: seq<T>)
    ensures ((a + b) + c) + d == a + ((b + c) + d)
  {
  }

  lemma RegroupFive<T>(a: seq<T>, b: seq<T>, c: seq<T>, d: seq<T>, e: seq<T>)
    ensures (a + (b + c)) + d + e == a + b + (c + d + e)
  {
  }
}

/** The wire protocol: scene objects and the messages that carry them. */
module Protocol {
  import opened Wrappers

  datatype Point = Point(x: real, y: real)

  datatype ShapeKind = Rect | Ellipse | Diamond

  // `z` is optional everywhere; a connector end bound to a shape holds that shape's id.
  datatype SceneObject =
    | Stroke(id: string, color: string, width: real, points: seq<Point>, z: Option<real>)
    | Shape(id: string, shape: ShapeKind, x: real, y: real, w: real, h: real, color: string,
            width: real, caption: Option<string>, fill: Option<string>, z: Option<real>)
    | Connector(id: string, x1: real, y1: real, x2: real, y2: real, color: string, width: real,
                arrow: bool, fromRef: Option<string>, toRef: Option<string>, z: Option<real>)
    | Text(id: string, x: real, y: real, text: string, color: string, size: real, z: Option<real>)

  // A payload, classified by its "type" field. Draw is the legacy stroke segment, which is
  // stored but which no client handles any more. Transient stands for every other type
  // (cursor, hello, unknown) and for a payload that does not parse.
  datatype Msg =
    | Add(obj: SceneObject)
    | Erase(ids: seq<string>)
    | Clear
    | Draw
    | Transient(kind: string)
}
