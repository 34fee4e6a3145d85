/**
 * The four-valued answer a shape gives when asked how it relates to another
 * (query) shape.
 *
 *  - Disjoint:   the two shapes do not overlap.
 *  - Intersects: they overlap partially, or the answer could not be narrowed down.
 *  - Contains:   the query lies entirely inside the shape asked.
 *  - Within:     the shape asked lies entirely inside the query.
 */
module SpatialRelations {

  datatype SpatialRelation = Disjoint | Intersects | Contains | Within

}
