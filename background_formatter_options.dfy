/** The options handed to a background formatter: the image, its resolution
    and the size it may take, bounded by a maximum fixed at creation. */
module Background {
  import opened Values

  /** A background image: a file name, the image's bytes, or a file object. */
  datatype ImageSource = FileName(path: string) | Data(bytes: seq<bv8>) | FileInfo(pathName: string)

  class BackgroundFormatterOptions {
    var image: ImageSource
    var dpi: Option<real>
    const maxHeight: real
    const maxWidth: real
    var height: real
    var width: real

    /** The size starts at the maximum size. */
    constructor (image: ImageSource, maxWidth: real, maxHeight: real)
      ensures this.image == image && dpi == None
      ensures this.maxWidth == maxWidth && width == maxWidth
      ensures this.maxHeight == maxHeight && height == maxHeight
    {
      this.image := image;
      dpi := None;
      this.maxHeight := maxHeight;
      height := maxHeight;
      this.maxWidth := maxWidth;
      width := maxWidth;
    }

    method SetImage(image: ImageSource)
      modifies this`image
      ensures this.image == image
    {
      this.image := image;
    }

    method SetHeight(height: real)
      modifies this`height
      ensures this.height == height
    {
      this.height := height;
    }

    method SetWidth(width: real)
      modifies this`width
      ensures this.width == width
    {
      this.width := width;
    }

    method SetDpi(dpi: Option<real>)
      modifies this`dpi
      ensures this.dpi == dpi
    {
      this.dpi := dpi;
    }
  }
}
