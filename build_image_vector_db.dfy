/**
 * The image index builder (`backend/build_image_vector_db.py`): create the
 * image directory, read and chunk the knowledge base, render chunk `i` to
 * `kb_images/chunk_i.png` and collect the paths in order.
 *
 * Whether the directory exists and the file's contents are parameters;
 * rendering is recorded as a log of (text, path) pairs. Encoding the
 * images and writing the index are not modelled.
 */
module ImageVectorDbBuild {
  import opened Wrappers
  import opened Text
  import opened Chunking

  const ImageDir: string := "kb_images"

  /** `os.path.join(IMAGE_DIR, f"chunk_{i}.png")`. */
  function ImagePath(i: nat): string
  {
    PathJoin(ImageDir, "chunk_" + NatToString(i) + ".png")
  }

  lemma ImagePathShape(i: nat)
    ensures ImagePath(i) == "kb_images/chunk_" + NatToString(i) + ".png"
  {
  }

  /** Distinct chunks get distinct image files. */
  lemma ImagePathInjective(i: nat, j: nat)
    requires ImagePath(i) == ImagePath(j)
    ensures i == j
  {
    ImagePathShape(i);
    ImagePathShape(j);
    var p, q := ImagePath(i), ImagePath(j);
    var prefix := "kb_images/chunk_";
    assert NatToString(i) == p[|prefix|..|p| - 4];
    assert NatToString(j) == q[|prefix|..|q| - 4];
    NatToStringInjective(i, j);
  }

  /** One call of `render_text_to_image(text, path)`. */
  datatype Render = Render(text: string, path: string)

  /**
   * `build_image_vector_db()` up to the encoding. `madeDir` says whether
   * the directory was created; `imagePaths` is `None` when the function
   * returned because the knowledge base is missing.
   */
  method BuildImageVectorDb(dirExists: bool, knowledgeBase: Option<string>)
    returns (madeDir: bool, renders: seq<Render>, imagePaths: Option<seq<string>>)
    ensures madeDir == !dirExists
    ensures knowledgeBase.None? ==> renders == [] && imagePaths.None?
    ensures knowledgeBase.Some? ==>
              var chunks := Chunks(knowledgeBase.value);
              && imagePaths.Some?
              && |imagePaths.value| == |chunks| == |renders|
              && (forall i | 0 <= i < |chunks| :: imagePaths.value[i] == ImagePath(i))
              && (forall i | 0 <= i < |chunks| :: renders[i] == Render(chunks[i], imagePaths.value[i]))
    ensures imagePaths.Some? ==>
              forall i, j | 0 <= i < j < |imagePaths.value| :: imagePaths.value[i] != imagePaths.value[j]
  {
    madeDir := false;
    if !dirExists {
      madeDir := true;
    }
    renders := [];
    if knowledgeBase.None? {
      return madeDir, renders, None;
    }
    var chunks := Chunks(knowledgeBase.value);
    var paths: seq<string> := [];
    for i := 0 to |chunks|
      invariant |paths| == i == |renders|
      invariant forall k | 0 <= k < i :: paths[k] == ImagePath(k)
      invariant forall k | 0 <= k < i :: renders[k] == Render(chunks[k], paths[k])
    {
      var imgPath := PathJoin(ImageDir, "chunk_" + NatToString(i) + ".png");
      renders := renders + [Render(chunks[i], imgPath)];
      paths := paths + [imgPath];
    }
    forall i, j | 0 <= i < j < |paths|
      ensures paths[i] != paths[j]
    {
      if paths[i] == paths[j] {
        ImagePathInjective(i, j);
      }
    }
    imagePaths := Some(paths);
  }
}
